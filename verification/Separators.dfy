/** Strings joined by separator characters: when the parts can be read back. */
module Separators {

  /** A part free of the separator is determined by the joined string, read from the left. */
  lemma FirstPartUnique(sep: char, a: string, x: string, b: string, y: string)
    requires a + [sep] + x == b + [sep] + y && sep !in a && sep !in b
    ensures a == b && x == y
  {
    var s := a + [sep] + x;
    assert s[|a|] == sep && s[|b|] == sep;
    assert s[..|a|] == a && s[..|b|] == b;
    assert |a| == |b|;
    assert s[|a| + 1..] == x && s[|b| + 1..] == y;
  }

  /** The same for the part after the last separator. */
  lemma LastPartUnique(sep: char, a: string, x: string, b: string, y: string)
    requires a + [sep] + x == b + [sep] + y && sep !in x && sep !in y
    ensures a == b && x == y
  {
    var s := a + [sep] + x;
    assert s[|a|] == sep && s[|b|] == sep;
    assert s[|a| + 1..] == x && s[|b| + 1..] == y;
    assert |x| == |y|;
    assert s[..|a|] == a && s[..|b|] == b;
  }
}
