/** Derivation of a variant identifier from a record title: split the title
    into whitespace-separated words, upper-case the first character of each
    word and concatenate the words with no separator. */
module Identifier {
  import opened Text
  import opened Words

  /** A word with its first character upper-cased and the rest kept as is. */
  function Capitalize(w: string): (c: string)
    ensures |c| == |w|
    ensures |w| > 0 ==> c[0] == ToUpper(w[0])
    ensures forall i :: 1 <= i < |w| ==> c[i] == w[i]
    ensures IsWord(w) ==> IsWord(c) && !IsAsciiLower(c[0])
  {
    if w == [] then [] else [ToUpper(w[0])] + w[1..]
  }

  function CapitalizeAll(ws: seq<string>): (cs: seq<string>)
    ensures |cs| == |ws|
  {
    seq(|ws|, i requires 0 <= i < |ws| => Capitalize(ws[i]))
  }

  lemma CapitalizeAllCons(w: string, ws: seq<string>)
    ensures CapitalizeAll([w] + ws) == [Capitalize(w)] + CapitalizeAll(ws)
  {
  }

  /** The identifier of a title: the in-order concatenation of its
      capitalised words. It never holds whitespace. */
  function DeriveIdentifier(title: string): (id: string)
    ensures NoWhitespace(id)
  {
    var caps := CapitalizeAll(SplitWhitespace(title));
    ConcatWords(caps);
    Concat(caps)
  }

  lemma {:induction false} ConcatWords(ws: seq<string>)
    requires forall i :: 0 <= i < |ws| ==> IsWord(ws[i])
    ensures NoWhitespace(Concat(ws))
    decreases |ws|
  {
    if ws != [] {
      ConcatWords(ws[1..]);
      var c := Concat(ws);
      assert c == ws[0] + Concat(ws[1..]);
      assert forall i :: |ws[0]| <= i < |c| ==> c[i] == Concat(ws[1..])[i - |ws[0]|];
    }
  }

  /** Reference definition: a single left-to-right pass that drops whitespace
      and upper-cases exactly the characters that begin a word. */
  function CapScan(s: string, atWordStart: bool): (r: string)
    decreases |s|
  {
    if s == [] then []
    else if IsWhitespace(s[0]) then CapScan(s[1..], true)
    else [if atWordStart then ToUpper(s[0]) else s[0]] + CapScan(s[1..], false)
  }

  /** Inside a word the scan copies characters unchanged. */
  lemma {:induction false} ScanInsideWord(w: string, rest: string)
    requires NoWhitespace(w)
    ensures CapScan(w + rest, false) == w + CapScan(rest, false)
    decreases |w|
  {
    if w != [] {
      assert (w + rest)[1..] == w[1..] + rest;
      ScanInsideWord(w[1..], rest);
    } else {
      assert w + rest == rest;
    }
  }

  /** Whitespace resets the scan to the start of a word. */
  lemma {:induction false} ScanAfterWhitespace(g: string, s: string, b: bool)
    requires AllWhitespace(g)
    ensures CapScan(g + s, b) == CapScan(s, b || g != [])
    decreases |g|
  {
    if g != [] {
      assert (g + s)[1..] == g[1..] + s;
      ScanAfterWhitespace(g[1..], s, true);
    } else {
      assert g + s == s;
    }
  }

  /** The scan of a word followed by whitespace (or nothing) is its
      capitalisation followed by the scan of the rest. */
  lemma ScanWord(w: string, rest: string)
    requires IsWord(w)
    requires rest == [] || IsWhitespace(rest[0])
    ensures CapScan(w + rest, true) == Capitalize(w) + CapScan(rest, true)
  {
    assert (w + rest)[1..] == w[1..] + rest;
    ScanInsideWord(w[1..], rest);
  }

  lemma DeriveNone(title: string)
    requires TrimStart(title) == []
    ensures DeriveIdentifier(title) == [] == CapScan(title, true)
  {
    TrimStartRemovesWhitespace(title);
    assert title[..|title|] == title;
    ScanAfterWhitespace(title, [], true);
    assert title + [] == title;
  }

  lemma DeriveStep(title: string)
    requires TrimStart(title) != []
    ensures var t := TrimStart(title); var w := TakeWord(t);
      && DeriveIdentifier(title) == Capitalize(w) + DeriveIdentifier(t[|w|..])
      && CapScan(title, true) == Capitalize(w) + CapScan(t[|w|..], true)
  {
    DeriveUnfold(title);
    ScanUnfold(title);
  }

  lemma DeriveUnfold(title: string)
    requires TrimStart(title) != []
    ensures var t := TrimStart(title); var w := TakeWord(t);
      DeriveIdentifier(title) == Capitalize(w) + DeriveIdentifier(t[|w|..])
  {
    var t := TrimStart(title);
    var w := TakeWord(t);
    var rest := SplitWhitespace(t[|w|..]);
    SplitConcatStep(title);
    CapitalizeAllCons(w, rest);
    ConcatCons(Capitalize(w), CapitalizeAll(rest));
  }

  lemma ScanUnfold(title: string)
    requires TrimStart(title) != []
    ensures var t := TrimStart(title); var w := TakeWord(t);
      CapScan(title, true) == Capitalize(w) + CapScan(t[|w|..], true)
  {
    var t := TrimStart(title);
    var w := TakeWord(t);
    ScanSkipsLeading(title);
    assert t == w + t[|w|..];
    ScanWord(w, t[|w|..]);
  }

  /** Leading whitespace does not change the scan from a word start. */
  lemma ScanSkipsLeading(title: string)
    ensures CapScan(title, true) == CapScan(TrimStart(title), true)
  {
    var t := TrimStart(title);
    var g := title[..|title| - |t|];
    TrimStartRemovesWhitespace(title);
    TrimStartSuffix(title);
    assert title == g + t;
    ScanAfterWhitespace(g, t, true);
  }

  /** The identifier agrees with the single-pass reference definition. */
  lemma {:induction false} DeriveMatchesScan(title: string)
    ensures DeriveIdentifier(title) == CapScan(title, true)
    decreases |title|
  {
    if TrimStart(title) == [] {
      DeriveNone(title);
    } else {
      var t := TrimStart(title);
      var w := TakeWord(t);
      DeriveStep(title);
      DeriveMatchesScan(t[|w|..]);
    }
  }

  lemma {:induction false} ScanLength(s: string, b: bool)
    ensures |CapScan(s, b)| == |RemoveWhitespace(s)|
    decreases |s|
  {
    if s != [] {
      ScanLength(s[1..], IsWhitespace(s[0]));
    }
  }

  lemma {:induction false} ScanStartsUpper(s: string)
    requires CapScan(s, true) != []
    ensures !IsAsciiLower(CapScan(s, true)[0])
    decreases |s|
  {
    if IsWhitespace(s[0]) {
      ScanStartsUpper(s[1..]);
    }
  }

  /** The identifier keeps exactly the title's non-whitespace characters, so
      it is empty exactly when the title is empty or all whitespace. */
  lemma IdentifierLength(title: string)
    ensures |DeriveIdentifier(title)| == |RemoveWhitespace(title)|
    ensures DeriveIdentifier(title) == [] <==> AllWhitespace(title)
  {
    DeriveMatchesScan(title);
    ScanLength(title, true);
    RemoveWhitespaceEmpty(title);
  }

  /** A non-empty identifier starts with a character that is not a lower-case
      ASCII letter. */
  lemma IdentifierStartsUpper(title: string)
    requires DeriveIdentifier(title) != []
    ensures !IsAsciiLower(DeriveIdentifier(title)[0])
  {
    DeriveMatchesScan(title);
    ScanStartsUpper(title);
  }

  /** Deriving an identifier from an identifier changes nothing. */
  lemma DeriveIdempotent(title: string)
    ensures DeriveIdentifier(DeriveIdentifier(title)) == DeriveIdentifier(title)
  {
    var id := DeriveIdentifier(title);
    if id == [] {
      DeriveEmpty();
    } else {
      IdentifierStartsUpper(title);
      DeriveSingleWord(id);
    }
  }

  lemma DeriveEmpty()
    ensures DeriveIdentifier([]) == []
  {
    SplitNothing();
  }

  /** A single word is only capitalised. */
  lemma DeriveSingleWord(w: string)
    requires IsWord(w)
    ensures DeriveIdentifier(w) == Capitalize(w)
  {
    SplitSingleWord(w);
    ConcatSingle(Capitalize(w));
    assert DeriveIdentifier(w) == Concat(CapitalizeAll([w]));
    assert CapitalizeAll([w]) == [Capitalize(w)];
  }

  /** Words written with single spaces give the concatenation of the
      capitalised words. */
  lemma DeriveOfWords(ws: seq<string>)
    requires forall i :: 0 <= i < |ws| ==> IsWord(ws[i])
    ensures DeriveIdentifier(Join(ws, " ")) == Concat(CapitalizeAll(ws))
  {
    SplitJoin(ws);
  }

  /** Sample titles: "First Win" gives "FirstWin", "second try" gives
      "SecondTry", and a blank title gives the empty identifier. */
  lemma DeriveExamples()
    ensures DeriveIdentifier("First Win") == "FirstWin"
    ensures DeriveIdentifier("second try") == "SecondTry"
    ensures DeriveIdentifier("") == ""
    ensures DeriveIdentifier(" \t ") == ""
  {
    FirstWin("First Win");
    SecondTry("second try");
    DeriveEmpty();
    Blank(" \t ");
  }

  lemma FirstWin(t: string)
    requires t == "First Win"
    ensures DeriveIdentifier(t) == "FirstWin"
  {
    assert IsWord("First") && IsWord("Win");
    DeriveTwoWords("First", "Win");
    assert t == "First" + " " + "Win";
    assert Capitalize("First") == "First";
    assert Capitalize("Win") == "Win";
    assert "First" + "Win" == "FirstWin";
  }

  lemma SecondTry(t: string)
    requires t == "second try"
    ensures DeriveIdentifier(t) == "SecondTry"
  {
    assert IsWord("second") && IsWord("try");
    DeriveTwoWords("second", "try");
    assert t == "second" + " " + "try";
    assert Capitalize("second") == "Second";
    assert Capitalize("try") == "Try";
    assert "Second" + "Try" == "SecondTry";
  }

  lemma Blank(t: string)
    requires t == " \t "
    ensures DeriveIdentifier(t) == ""
  {
    assert AllWhitespace(t);
    IdentifierLength(t);
  }

  /** Identifiers need not be unique: a two-word title and its own
      identifier give the same identifier. */
  lemma TitlesShareIdentifier(a: string, b: string)
    requires IsWord(a) && IsWord(b)
    ensures DeriveIdentifier(Capitalize(a) + Capitalize(b)) == DeriveIdentifier(a + " " + b)
  {
    DeriveTwoWords(a, b);
    DeriveIdempotent(a + " " + b);
  }

  /** "first win" and "FirstWin" are different titles with the identifier
      FirstWin. */
  lemma IdentifierCollision(t: string, u: string)
    requires t == "first win" && u == "FirstWin"
    ensures DeriveIdentifier(t) == "FirstWin"
    ensures DeriveIdentifier(u) == "FirstWin"
  {
    CollisionParts(t, u, "first", "win");
    DeriveTwoWords("first", "win");
    TitlesShareIdentifier("first", "win");
  }

  lemma CollisionParts(t: string, u: string, a: string, b: string)
    requires t == "first win" && u == "FirstWin" && a == "first" && b == "win"
    ensures IsWord(a) && IsWord(b)
    ensures t == a + " " + b && u == Capitalize(a) + Capitalize(b)
  {
    assert Capitalize(a) == "First" && Capitalize(b) == "Win";
  }

  lemma DeriveTwoWords(a: string, b: string)
    requires IsWord(a) && IsWord(b)
    ensures DeriveIdentifier(a + " " + b) == Capitalize(a) + Capitalize(b)
  {
    DeriveOfWords([a, b]);
    assert Join([a, b], " ") == a + " " + b;
    assert CapitalizeAll([a, b]) == [Capitalize(a)] + [Capitalize(b)];
    ConcatCons(Capitalize(a), [Capitalize(b)]);
    ConcatCons(Capitalize(b), []);
  }
}
