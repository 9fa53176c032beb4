/** Property-name canonicalisation (`normalizeEventName`, AVM1Utils.ts line 41).

    A context is either case-sensitive (names are compared as written) or
    case-insensitive (names are lower-cased before every store, lookup and
    comparison). Only ASCII letters are folded here: JavaScript's full
    Unicode `toLowerCase`/`toUpperCase` tables are not modelled.
 */
module Names {

  function LowerChar(c: char): char {
    if 'A' <= c <= 'Z' then (c as int + 32) as char else c
  }

  function UpperChar(c: char): char {
    if 'a' <= c <= 'z' then (c as int - 32) as char else c
  }

  function Lower(s: string): string {
    seq(|s|, i requires 0 <= i < |s| => LowerChar(s[i]))
  }

  /** The canonical key under which a context stores and looks up `name`. */
  function Normalize(caseSensitive: bool, name: string): string {
    if caseSensitive then name else Lower(name)
  }

  /** `a` and `b` spell the same name up to the case of ASCII letters. */
  predicate SameIgnoringCase(a: string, b: string) {
    |a| == |b| && forall i :: 0 <= i < |a| ==> LowerChar(a[i]) == LowerChar(b[i])
  }

  lemma LowerCharIdempotent(c: char)
    ensures LowerChar(LowerChar(c)) == LowerChar(c)
  {
  }

  /** Normalising twice is the same as normalising once. */
  lemma NormalizeIdempotent(caseSensitive: bool, name: string)
    ensures Normalize(caseSensitive, Normalize(caseSensitive, name)) == Normalize(caseSensitive, name)
  {
    if !caseSensitive {
      var once := Lower(name);
      var twice := Lower(once);
      forall i | 0 <= i < |name|
        ensures twice[i] == once[i]
      {
        LowerCharIdempotent(name[i]);
      }
    }
  }

  /** A case-sensitive context normalises nothing. */
  lemma NormalizeCaseSensitiveIsIdentity(name: string)
    ensures Normalize(true, name) == name
  {
  }

  /** In a case-insensitive context two names reach the same key exactly when
      they differ only in the case of their letters; in a case-sensitive
      context exactly when they are equal. */
  lemma NormalizeSameKey(caseSensitive: bool, a: string, b: string)
    ensures !caseSensitive ==> (Normalize(caseSensitive, a) == Normalize(caseSensitive, b) <==> SameIgnoringCase(a, b))
    ensures caseSensitive ==> (Normalize(caseSensitive, a) == Normalize(caseSensitive, b) <==> a == b)
  {
    if !caseSensitive {
      if Lower(a) == Lower(b) {
        forall i | 0 <= i < |a|
          ensures LowerChar(a[i]) == LowerChar(b[i])
        {
          assert Lower(a)[i] == Lower(b)[i];
        }
      }
      if SameIgnoringCase(a, b) {
        assert Lower(a) == Lower(b);
      }
    }
  }

  /** "Foo" and "foo" share one key in a case-insensitive context. */
  lemma FooAndfooShareKey()
    ensures Normalize(false, "Foo") == Normalize(false, "foo")
    ensures Normalize(true, "Foo") != Normalize(true, "foo")
  {
    NormalizeSameKey(false, "Foo", "foo");
    assert LowerChar('F') == LowerChar('f');
  }
}
