/** Trimming and whitespace-free content of strings, for any notion of whitespace: the three
    languages of the repository each have their own. */
module Trimming {

  type Whitespace = char -> bool

  function TrimStart(s: string, ws: Whitespace): string {
    if s != [] && ws(s[0]) then TrimStart(s[1..], ws) else s
  }

  function TrimEnd(s: string, ws: Whitespace): string {
    if s != [] && ws(s[|s| - 1]) then TrimEnd(s[..|s| - 1], ws) else s
  }

  function Trim(s: string, ws: Whitespace): string {
    TrimEnd(TrimStart(s, ws), ws)
  }

  /** No whitespace at either end. */
  predicate Tight(s: string, ws: Whitespace) {
    s == [] || (!ws(s[0]) && !ws(s[|s| - 1]))
  }

  /** The string without its whitespace. */
  function Ink(s: string, ws: Whitespace): string {
    if s == [] then []
    else Ink(s[..|s| - 1], ws) + if ws(s[|s| - 1]) then [] else [s[|s| - 1]]
  }

  lemma {:induction false} InkOfConcat(a: string, b: string, ws: Whitespace)
    ensures Ink(a + b, ws) == Ink(a, ws) + Ink(b, ws)
  {
    if b == [] {
      assert a + b == a;
    } else {
      assert (a + b)[..|a + b| - 1] == a + b[..|b| - 1];
      InkOfConcat(a, b[..|b| - 1], ws);
    }
  }

  lemma {:induction false} TrimEndMeaning(s: string, ws: Whitespace)
    ensures TrimEnd(s, ws) <= s
    ensures TrimEnd(s, ws) == [] || !ws(TrimEnd(s, ws)[|TrimEnd(s, ws)| - 1])
    ensures forall i :: |TrimEnd(s, ws)| <= i < |s| ==> ws(s[i])
    ensures Ink(TrimEnd(s, ws), ws) == Ink(s, ws)
  {
    if s != [] && ws(s[|s| - 1]) {
      TrimEndMeaning(s[..|s| - 1], ws);
    }
  }

  lemma {:induction false} TrimStartMeaning(s: string, ws: Whitespace)
    ensures |TrimStart(s, ws)| <= |s| && TrimStart(s, ws) == s[|s| - |TrimStart(s, ws)|..]
    ensures TrimStart(s, ws) == [] || !ws(TrimStart(s, ws)[0])
    ensures Ink(TrimStart(s, ws), ws) == Ink(s, ws)
  {
    if s != [] && ws(s[0]) {
      TrimStartMeaning(s[1..], ws);
      assert s == [s[0]] + s[1..];
      assert Ink([s[0]], ws) == [] by { assert [s[0]][..0] == []; }
      InkOfConcat([s[0]], s[1..], ws);
    }
  }

  lemma TrimMeaning(s: string, ws: Whitespace)
    ensures Tight(Trim(s, ws), ws) && |Trim(s, ws)| <= |s|
    ensures Ink(Trim(s, ws), ws) == Ink(s, ws)
  {
    TrimStartMeaning(s, ws);
    TrimEndMeaning(TrimStart(s, ws), ws);
  }

  lemma TrimOfTight(s: string, ws: Whitespace)
    requires Tight(s, ws)
    ensures TrimStart(s, ws) == s && TrimEnd(s, ws) == s && Trim(s, ws) == s
  {
  }

  /** With nothing to trim in front, trimming cuts a prefix. */
  lemma TrimOfStartTight(s: string, ws: Whitespace)
    requires s == [] || !ws(s[0])
    ensures Trim(s, ws) == TrimEnd(s, ws) && Trim(s, ws) <= s
    ensures s != [] ==> Trim(s, ws) != []
  {
    TrimEndMeaning(s, ws);
  }
}
