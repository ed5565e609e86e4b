/** Field formats shared by the modules: the regular expressions of the sources as predicates,
    and the byte-wise string order of Go. */
module Text {

  const MAX_SAFE: int := 0x1F_FFFF_FFFF_FFFF

  datatype Option<+T> = None | Some(value: T)

  predicate Lower(c: char) { 'a' <= c <= 'z' }

  predicate Digit(c: char) { '0' <= c <= '9' }

  predicate HexDigit(c: char) { Digit(c) || 'a' <= c <= 'f' }

  /** `^[a-z][a-z0-9_-]{0,63}$` */
  predicate Reference(s: string) {
    1 <= |s| <= 64 && Lower(s[0]) &&
    forall i | 0 <= i < |s| :: Lower(s[i]) || Digit(s[i]) || s[i] == '_' || s[i] == '-'
  }

  /** Letters of either case and digits. */
  predicate Alphanumeric(c: char) { Lower(c) || 'A' <= c <= 'Z' || Digit(c) }

  /** `^[a-zA-Z0-9_-]{1,100}$` */
  predicate RouterReference(s: string) {
    1 <= |s| <= 100 && forall i | 0 <= i < |s| :: Alphanumeric(s[i]) || s[i] == '_' || s[i] == '-'
  }

  /** `^[a-f0-9]{8}(?:-[a-f0-9]{4}){3}-[a-f0-9]{12}$` */
  predicate Uuid(s: string) {
    |s| == 36 && forall i | 0 <= i < 36 :: if i in {8, 13, 18, 23} then s[i] == '-' else HexDigit(s[i])
  }

  /** `^[0-9a-f]{n}$` */
  predicate Hex(s: string, n: nat) {
    |s| == n && forall i | 0 <= i < |s| :: HexDigit(s[i])
  }

  predicate Sha256(s: string) { Hex(s, 64) }

  /** Strictly before in the byte-wise order of strings. */
  predicate Before(a: string, b: string) {
    if |b| == 0 then false
    else if |a| == 0 then true
    else a[0] < b[0] || (a[0] == b[0] && Before(a[1..], b[1..]))
  }

  lemma {:induction false} BeforeTransitive(a: string, b: string, c: string)
    requires Before(a, b) && Before(b, c)
    ensures Before(a, c)
  {
    if |a| > 0 && a[0] == b[0] == c[0] {
      BeforeTransitive(a[1..], b[1..], c[1..]);
    }
  }

  lemma {:induction false} BeforeIrreflexive(a: string)
    ensures !Before(a, a)
  {
    if |a| > 0 {
      BeforeIrreflexive(a[1..]);
    }
  }

  lemma {:induction false} BeforeTotal(a: string, b: string)
    ensures a == b || Before(a, b) || Before(b, a)
  {
    if |a| > 0 && |b| > 0 && a[0] == b[0] {
      BeforeTotal(a[1..], b[1..]);
      assert a == [a[0]] + a[1..] && b == [b[0]] + b[1..];
    }
  }
}
