/** Rust's `str::split_whitespace`: the maximal runs of non-whitespace
    characters of a string, in order. */
module Words {
  import opened Text

  /** `s` without its leading whitespace. */
  function TrimStart(s: string): (t: string)
    ensures |t| <= |s|
    ensures t == [] || !IsWhitespace(t[0])
    decreases |s|
  {
    if s == [] || !IsWhitespace(s[0]) then s else TrimStart(s[1..])
  }

  /** `TrimStart` only drops characters from the front. */
  lemma {:induction false} TrimStartSuffix(s: string)
    ensures TrimStart(s) == s[|s| - |TrimStart(s)|..]
    decreases |s|
  {
    if s != [] && IsWhitespace(s[0]) {
      TrimStartSuffix(s[1..]);
    }
  }

  /** What `TrimStart` removes is whitespace. */
  lemma {:induction false} TrimStartRemovesWhitespace(s: string)
    ensures AllWhitespace(s[..|s| - |TrimStart(s)|])
    decreases |s|
  {
    if s != [] && IsWhitespace(s[0]) {
      TrimStartRemovesWhitespace(s[1..]);
      var k := |s| - |TrimStart(s)|;
      assert forall i :: 1 <= i < k ==> s[i] == s[1..][i - 1];
    }
  }

  /** The longest whitespace-free prefix of `s`. */
  function TakeWord(s: string): (w: string)
    ensures w <= s
    ensures NoWhitespace(w)
    ensures |w| == |s| || IsWhitespace(s[|w|])
    decreases |s|
  {
    if s == [] || IsWhitespace(s[0]) then [] else [s[0]] + TakeWord(s[1..])
  }

  /** The words of `s`: every word is non-empty and holds no whitespace. */
  function SplitWhitespace(s: string): (ws: seq<string>)
    ensures forall i :: 0 <= i < |ws| ==> IsWord(ws[i])
    decreases |s|
  {
    var t := TrimStart(s);
    if t == [] then []
    else
      var w := TakeWord(t);
      assert IsWord(w);
      var rest := SplitWhitespace(t[|w|..]);
      assert forall i :: 0 <= i < |rest| ==> IsWord(rest[i]);
      [w] + rest
  }

  lemma SplitNothing()
    ensures SplitWhitespace([]) == []
  {
    assert TrimStart([]) == [];
  }

  /** A single word splits into itself. */
  lemma SplitSingleWord(w: string)
    requires IsWord(w)
    ensures SplitWhitespace(w) == [w]
  {
    TakeWordOfWord(w, []);
    assert w + [] == w;
    assert w[|w|..] == [];
    SplitNothing();
  }

  /** Leading whitespace does not change the words. */
  lemma SplitAfterWhitespace(g: string, s: string)
    requires AllWhitespace(g)
    ensures SplitWhitespace(g + s) == SplitWhitespace(s)
  {
    TrimStartAfterWhitespace(g, s);
  }

  lemma {:induction false} TrimStartAfterWhitespace(g: string, s: string)
    requires AllWhitespace(g)
    ensures TrimStart(g + s) == TrimStart(s)
    decreases |g|
  {
    if g == [] {
      assert g + s == s;
    } else {
      assert (g + s)[1..] == g[1..] + s;
      TrimStartAfterWhitespace(g[1..], s);
    }
  }

  /** A word followed by a whitespace character (or nothing) is taken whole. */
  lemma {:induction false} TakeWordOfWord(w: string, rest: string)
    requires NoWhitespace(w)
    requires rest == [] || IsWhitespace(rest[0])
    ensures TakeWord(w + rest) == w
    decreases |w|
  {
    if w == [] {
      assert w + rest == rest;
    } else {
      assert (w + rest)[1..] == w[1..] + rest;
      TakeWordOfWord(w[1..], rest);
    }
  }

  /** A non-empty word followed by whitespace (or nothing) is the first word. */
  lemma SplitWordThen(w: string, rest: string)
    requires |w| > 0 && NoWhitespace(w)
    requires rest == [] || IsWhitespace(rest[0])
    ensures SplitWhitespace(w + rest) == [w] + SplitWhitespace(rest)
  {
    TakeWordOfWord(w, rest);
    assert (w + rest)[|w|..] == rest;
  }

  /** Splitting the space-separated join of words gives the words back. */
  lemma {:induction false} SplitJoin(ws: seq<string>)
    requires forall i :: 0 <= i < |ws| ==> IsWord(ws[i])
    ensures SplitWhitespace(Join(ws, " ")) == ws
    decreases |ws|
  {
    if |ws| == 0 {
      SplitNothing();
    } else if |ws| == 1 {
      SplitSingleWord(ws[0]);
    } else {
      SplitJoin(ws[1..]);
      SplitJoinCons(ws);
    }
  }

  lemma SplitJoinCons(ws: seq<string>)
    requires |ws| > 1 && IsWord(ws[0])
    requires SplitWhitespace(Join(ws[1..], " ")) == ws[1..]
    ensures SplitWhitespace(Join(ws, " ")) == ws
  {
    SplitJoinStep(ws[0], Join(ws[1..], " "));
    assert ws == [ws[0]] + ws[1..];
  }

  lemma SplitJoinStep(w: string, tail: string)
    requires IsWord(w)
    ensures SplitWhitespace(w + " " + tail) == [w] + SplitWhitespace(tail)
  {
    assert w + " " + tail == w + (" " + tail);
    SplitWordThen(w, " " + tail);
    SplitAfterWhitespace(" ", tail);
  }

  /** The words, put back together, are the non-whitespace characters of `s`. */
  lemma {:induction false} SplitConcat(s: string)
    ensures Concat(SplitWhitespace(s)) == RemoveWhitespace(s)
    decreases |s|
  {
    if TrimStart(s) == [] {
      SplitConcatNone(s);
    } else {
      var t := TrimStart(s);
      var w := TakeWord(t);
      SplitConcatStep(s);
      SplitConcat(t[|w|..]);
      ConcatCons(w, SplitWhitespace(t[|w|..]));
    }
  }

  /** Whitespace-only input: no words and no non-whitespace characters. */
  lemma SplitConcatNone(s: string)
    requires TrimStart(s) == []
    ensures SplitWhitespace(s) == [] && RemoveWhitespace(s) == []
  {
    TrimStartRemovesWhitespace(s);
    assert s[..|s|] == s;
    RemoveWhitespaceEmpty(s);
  }

  /** One step of the split: leading whitespace, a word, then the rest. */
  lemma SplitConcatStep(s: string)
    requires TrimStart(s) != []
    ensures var t := TrimStart(s); var w := TakeWord(t);
      && SplitWhitespace(s) == [w] + SplitWhitespace(t[|w|..])
      && RemoveWhitespace(s) == w + RemoveWhitespace(t[|w|..])
  {
    var t := TrimStart(s);
    var w := TakeWord(t);
    RemoveLeadingWhitespace(s);
    RemoveWord(t);
  }

  lemma RemoveLeadingWhitespace(s: string)
    ensures RemoveWhitespace(s) == RemoveWhitespace(TrimStart(s))
  {
    var t := TrimStart(s);
    var g := s[..|s| - |t|];
    TrimStartSuffix(s);
    assert s == g + t;
    TrimStartRemovesWhitespace(s);
    RemoveWhitespaceAppend(g, t);
    RemoveWhitespaceEmpty(g);
  }

  lemma RemoveWord(t: string)
    ensures RemoveWhitespace(t) == TakeWord(t) + RemoveWhitespace(t[|TakeWord(t)|..])
  {
    var w := TakeWord(t);
    var rest := t[|w|..];
    assert t == w + rest;
    RemoveWhitespaceAppend(w, rest);
    RemoveWhitespaceOfWord(w);
  }

  /** A string has no words exactly when it is all whitespace. */
  lemma SplitEmpty(s: string)
    ensures SplitWhitespace(s) == [] <==> AllWhitespace(s)
  {
    SplitConcat(s);
    RemoveWhitespaceEmpty(s);
    var ws := SplitWhitespace(s);
    if ws != [] {
      ConcatCons(ws[0], ws[1..]);
      assert ws == [ws[0]] + ws[1..];
    }
  }
}
