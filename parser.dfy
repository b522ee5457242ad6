/** The text and geometry helpers of the screenshot parser: dist_points,
    extract_number and understand_button. Python's float() and fuzzywuzzy's
    fuzz.ratio are foreign code and stay abstract parameters. */
module Parser {
  import opened Common
  import opened Text

  /** A pixel coordinate (x, y). */
  datatype Point = Point(x: int, y: int)

  function Square(n: int): (s: int)
    ensures s >= 0
    ensures s == 0 <==> n == 0
  {
    n * n
  }

  /** dist_points: the SQUARED Euclidean distance; callers compare its
      square root or use it only to order distances. */
  function DistPoints(a: Point, b: Point): int
  {
    Square(a.x - b.x) + Square(a.y - b.y)
  }

  /** The squared distance is never negative and is zero exactly for equal
      points. */
  lemma DistPointsZero(a: Point, b: Point)
    ensures DistPoints(a, b) >= 0
    ensures DistPoints(a, b) == 0 <==> a == b
  {
  }

  lemma DistPointsSymmetric(a: Point, b: Point)
    ensures DistPoints(a, b) == DistPoints(b, a)
  {
    assert Square(a.x - b.x) == Square(b.x - a.x);
    assert Square(a.y - b.y) == Square(b.y - a.y);
  }

  // -----------------------------------------------------------------------
  // extract_number

  /** The OCR value 66 is taken for a misread "BB" and never returned. */
  const MisreadBB: real := 66.0

  /** `word.replace('BB', '').replace('$', '').replace(',', '.')`. */
  function Clean(word: string): string
  {
    ReplaceAll(ReplaceAll(ReplaceAll(word, "BB", ""), "$", ""), ",", ".")
  }

  /** `float(w)` after cleaning succeeds and does not give 66. */
  predicate Qualifies(word: string, parseFloat: string -> Option<real>)
  {
    parseFloat(Clean(word)).Some? && parseFloat(Clean(word)).value != MisreadBB
  }

  /** The number extract_number finds among `words`: the last qualifying
      word's value, or 0.0 when none qualifies. */
  function LastNumber(words: seq<string>, parseFloat: string -> Option<real>): real
  {
    if words == [] then 0.0
    else if Qualifies(words[|words| - 1], parseFloat) then parseFloat(Clean(words[|words| - 1])).value
    else LastNumber(words[..|words| - 1], parseFloat)
  }

  /** extract_number: scan the words from the last one back; `parseFloat`
      returns None where float() raises ValueError. */
  method ExtractNumber(text: string, parseFloat: string -> Option<real>) returns (number: real)
    ensures number == LastNumber(Words(text), parseFloat)
  {
    var words := Words(text);
    var i := |words|;
    assert words[..i] == words;
    while i > 0
      invariant 0 <= i <= |words|
      invariant LastNumber(words, parseFloat) == LastNumber(words[..i], parseFloat)
    {
      var clean := Clean(words[i - 1]);
      var parsed := parseFloat(clean);
      if parsed.Some? {
        if parsed.value != MisreadBB {
          return parsed.value;
        }
      }
      assert words[..i][..i - 1] == words[..i - 1];
      i := i - 1;
    }
    assert words[..0] == [];
    return 0.0;
  }

  /** The number found is the value of the LAST qualifying word: every word
      after it fails to parse or gives 66. */
  lemma {:induction false} LastNumberIsLastQualifying(words: seq<string>, parseFloat: string -> Option<real>, k: int)
    requires 0 <= k < |words| && Qualifies(words[k], parseFloat)
    requires forall j :: k < j < |words| ==> !Qualifies(words[j], parseFloat)
    ensures LastNumber(words, parseFloat) == parseFloat(Clean(words[k])).value
  {
    if k < |words| - 1 {
      var init := words[..|words| - 1];
      assert forall j :: k < j < |init| ==> init[j] == words[j];
      LastNumberIsLastQualifying(init, parseFloat, k);
    }
  }

  /** With no qualifying word the result is 0.0. */
  lemma {:induction false} LastNumberDefault(words: seq<string>, parseFloat: string -> Option<real>)
    requires forall j :: 0 <= j < |words| ==> !Qualifies(words[j], parseFloat)
    ensures LastNumber(words, parseFloat) == 0.0
  {
    if words != [] {
      var init := words[..|words| - 1];
      assert forall j :: 0 <= j < |init| ==> init[j] == words[j];
      LastNumberDefault(init, parseFloat);
    }
  }

  /** 66 is never returned, and any non-zero result is the value of some
      word. */
  lemma {:induction false} LastNumberNeverMisread(words: seq<string>, parseFloat: string -> Option<real>)
    ensures LastNumber(words, parseFloat) != MisreadBB
    ensures LastNumber(words, parseFloat) != 0.0 ==>
      exists k :: 0 <= k < |words| && parseFloat(Clean(words[k])) == Some(LastNumber(words, parseFloat))
  {
    if words != [] && !Qualifies(words[|words| - 1], parseFloat) {
      var init := words[..|words| - 1];
      LastNumberNeverMisread(init, parseFloat);
      if LastNumber(words, parseFloat) != 0.0 {
        var k :| 0 <= k < |init| && parseFloat(Clean(init[k])) == Some(LastNumber(init, parseFloat));
        assert init[k] == words[k];
      }
    }
  }

  // -----------------------------------------------------------------------
  // understand_button

  /** fuzz.ratio(text, variant) must exceed this for a fuzzy match. */
  const FuzzyThreshold: int := 70

  /** The dict button_variants, in insertion order. The duplicate
      'чек фолд' is as in the source. */
  const ButtonVariants: seq<(string, seq<string>)> := [
    ("Call", ["call", "кол", "колл", "уравнять", "уравнять ставку"]),
    ("Raise", ["raise", "рейз", "поднять", "поднять ставку"]),
    ("Bet", ["бет", "bet", "ставка", "делать ставку"]),
    ("Fold", ["fold", "фолд", "сбросить", "сброс"]),
    ("All-In", ["all-in", "all in", "олл-ин", "олл ин", "все в"]),
    ("Check", ["check", "чек", "пас", "пропустить"]),
    ("Check / Fold", ["чек / фолд", "чек фолд", "чек фолд", "check / fold", "check fold", "checkfold"])
  ]

  /** A variant matches the cleaned text: it occurs in it, or `ratio`
      (fuzz.ratio) scores the pair above the threshold. */
  predicate Matches(t: string, variant: string, ratio: (string, string) -> int)
  {
    IsSubstring(variant, t) || ratio(t, variant) > FuzzyThreshold
  }

  predicate EntryMatches(t: string, variants: seq<string>, ratio: (string, string) -> int)
  {
    exists u :: 0 <= u < |variants| && Matches(t, variants[u], ratio)
  }

  /** The name of the first entry with a matching variant. */
  function FirstButton(t: string, table: seq<(string, seq<string>)>, ratio: (string, string) -> int): Option<string>
  {
    if table == [] then None
    else if EntryMatches(t, table[0].1, ratio) then Some(table[0].0)
    else FirstButton(t, table[1..], ratio)
  }

  /** understand_button: lower-case and strip, then try every variant of
      every button in order, substring test first, fuzzy score second. */
  method UnderstandButton(text: string, ratio: (string, string) -> int) returns (button: Option<string>)
    ensures button == FirstButton(Strip(Lower(text)), ButtonVariants, ratio)
  {
    var t := Strip(Lower(text));
    var b := 0;
    while b < |ButtonVariants|
      invariant 0 <= b <= |ButtonVariants|
      invariant FirstButton(t, ButtonVariants, ratio) == FirstButton(t, ButtonVariants[b..], ratio)
    {
      var name := ButtonVariants[b].0;
      var variants := ButtonVariants[b].1;
      var v := 0;
      while v < |variants|
        invariant 0 <= v <= |variants|
        invariant forall u :: 0 <= u < v ==> !Matches(t, variants[u], ratio)
      {
        if IsSubstring(variants[v], t) {
          assert Matches(t, variants[v], ratio);
          return Some(name);
        }
        if ratio(t, variants[v]) > FuzzyThreshold {
          assert Matches(t, variants[v], ratio);
          return Some(name);
        }
        v := v + 1;
      }
      assert ButtonVariants[b..][1..] == ButtonVariants[b + 1..];
      b := b + 1;
    }
    return None;
  }

  /** The first entry that matches decides, and no earlier entry matches;
      there is a result exactly when some variant of some entry matches. */
  lemma {:induction false} FirstButtonIsFirstMatch(t: string, table: seq<(string, seq<string>)>, ratio: (string, string) -> int)
    ensures FirstButton(t, table, ratio).Some? <==>
      exists b :: 0 <= b < |table| && EntryMatches(t, table[b].1, ratio)
    ensures FirstButton(t, table, ratio).Some? ==>
      exists b :: 0 <= b < |table| && EntryMatches(t, table[b].1, ratio)
        && FirstButton(t, table, ratio) == Some(table[b].0)
        && forall c :: 0 <= c < b ==> !EntryMatches(t, table[c].1, ratio)
  {
    if table != [] && !EntryMatches(t, table[0].1, ratio) {
      FirstButtonIsFirstMatch(t, table[1..], ratio);
      if FirstButton(t, table, ratio).Some? {
        var b :| 0 <= b < |table[1..]| && EntryMatches(t, table[1..][b].1, ratio)
          && FirstButton(t, table[1..], ratio) == Some(table[1..][b].0)
          && forall c :: 0 <= c < b ==> !EntryMatches(t, table[1..][c].1, ratio);
        assert table[b + 1] == table[1..][b];
        forall c | 0 <= c < b + 1 ensures !EntryMatches(t, table[c].1, ratio) {
          if c > 0 { assert table[c] == table[1..][c - 1]; }
        }
      }
      forall b | 0 <= b < |table| && EntryMatches(t, table[b].1, ratio)
        ensures FirstButton(t, table, ratio).Some?
      {
        assert b > 0 && table[1..][b - 1] == table[b];
      }
    }
  }

  /** The seven button names. */
  const ButtonNames: seq<string> := ["Call", "Raise", "Bet", "Fold", "All-In", "Check", "Check / Fold"]

  /** understand_button returns None or one of the seven button names; it
      returns a name whenever some variant occurs in the cleaned text. */
  lemma ButtonResult(t: string, ratio: (string, string) -> int)
    ensures FirstButton(t, ButtonVariants, ratio).Some? ==> FirstButton(t, ButtonVariants, ratio).value in ButtonNames
    ensures (exists b, u :: 0 <= b < |ButtonVariants| && 0 <= u < |ButtonVariants[b].1|
               && IsSubstring(ButtonVariants[b].1[u], t))
            ==> FirstButton(t, ButtonVariants, ratio).Some?
  {
    FirstButtonIsFirstMatch(t, ButtonVariants, ratio);
    if FirstButton(t, ButtonVariants, ratio).Some? {
      var b :| 0 <= b < |ButtonVariants| && FirstButton(t, ButtonVariants, ratio) == Some(ButtonVariants[b].0);
      assert ButtonVariants[b].0 == ButtonNames[b];
    }
    if exists b, u :: 0 <= b < |ButtonVariants| && 0 <= u < |ButtonVariants[b].1|
         && IsSubstring(ButtonVariants[b].1[u], t) {
      var b, u :| 0 <= b < |ButtonVariants| && 0 <= u < |ButtonVariants[b].1|
        && IsSubstring(ButtonVariants[b].1[u], t);
      assert Matches(t, ButtonVariants[b].1[u], ratio);
    }
  }

  /** Each "Check / Fold" variant ends with "фолд" (the first three) or
      "fold" (the others). */
  lemma EndsWithFoldWord(u: int)
    requires 0 <= u < |ButtonVariants[6].1|
    ensures var v := ButtonVariants[6].1[u];
      OccursAt(if u < 3 then ButtonVariants[3].1[1] else ButtonVariants[3].1[0], v, |v| - 4)
  {
    var v := ButtonVariants[6].1[u];
    if u == 0 {
      assert v == "чек / " + "фолд";
    } else if u < 3 {
      assert v == "чек " + "фолд";
    } else if u == 3 {
      assert v == "check / " + "fold";
    } else if u == 4 {
      assert v == "check " + "fold";
    } else {
      assert v == "check" + "fold";
    }
  }

  /** "Check / Fold" is never recognised by an exact substring: each of its
      variants contains "fold" or "фолд", variants of "Fold", which is tried
      first. It can only come from a fuzzy score. */
  lemma CheckFoldOnlyByFuzzyScore(t: string, ratio: (string, string) -> int)
    requires FirstButton(t, ButtonVariants, ratio) == Some("Check / Fold")
    ensures forall u :: 0 <= u < |ButtonVariants[6].1| ==> !IsSubstring(ButtonVariants[6].1[u], t)
    ensures exists u :: 0 <= u < |ButtonVariants[6].1| && ratio(t, ButtonVariants[6].1[u]) > FuzzyThreshold
  {
    FirstButtonIsFirstMatch(t, ButtonVariants, ratio);
    var b :| 0 <= b < |ButtonVariants| && EntryMatches(t, ButtonVariants[b].1, ratio)
      && FirstButton(t, ButtonVariants, ratio) == Some(ButtonVariants[b].0)
      && forall c :: 0 <= c < b ==> !EntryMatches(t, ButtonVariants[c].1, ratio);
    assert b == 6;
    var fold := ButtonVariants[3].1;
    assert !EntryMatches(t, fold, ratio);
    assert !Matches(t, fold[0], ratio) && !Matches(t, fold[1], ratio);
    forall u | 0 <= u < |ButtonVariants[6].1| ensures !IsSubstring(ButtonVariants[6].1[u], t) {
      var v := ButtonVariants[6].1[u];
      if IsSubstring(v, t) {
        var w := if u < 3 then fold[1] else fold[0];
        EndsWithFoldWord(u);
        assert OccursAt(w, v, |v| - 4);
        SubstringTransitive(w, v, t);
        assert false;
      }
    }
    var u :| 0 <= u < |ButtonVariants[6].1| && Matches(t, ButtonVariants[6].1[u], ratio);
  }
}
