/**
 * The generator's identifier case converter (class `CaseConverter`): inserting
 * `_` before capitals, underscore_delimited to PascalCase and camelCase, labels
 * and capitalisation. Characters are ASCII; .NET's culture-aware
 * `TextInfo.ToTitleCase` is modelled on the lower-case text it is always given.
 */
module CaseConverter {
  import opened Ascii

  const Underscore: char := '_'
  const UnderscorecharWord: string := "underscorechar"
  /** What `ConvertToCapitalized(UnderscorecharWord)` yields; see `UnderscorecharCapitalized`. */
  const UnderscorecharTitle: string := "Underscorechar"

  // ---------------------------------------------------------------------------
  // DelimitCapitalizedWordsWithUnderscore

  /** What one character after the first contributes: itself, after `_` if upper case. */
  function Piece(c: char): string {
    if IsUpper(c) then [Underscore, c] else [c]
  }

  function UnderscoreBeforeUpper(s: string): string {
    if s == [] then [] else Piece(s[0]) + UnderscoreBeforeUpper(s[1..])
  }

  /** The trimmed text with `_` before every upper-case character but the first. */
  function DelimitedWords(t: string): string
    requires t != []
  {
    [t[0]] + UnderscoreBeforeUpper(t[1..])
  }

  /** The result of `DelimitCapitalizedWordsWithUnderscore`. */
  function DelimitedText(s: string): string
    requires s == [] || Trim(s) != []
  {
    if s == [] then [] else DelimitedWords(Trim(s))
  }

  lemma UnderscoreBeforeUpperSnoc(s: string, c: char)
    ensures UnderscoreBeforeUpper(s + [c]) == UnderscoreBeforeUpper(s) + Piece(c)
  {
    if s != [] {
      assert (s + [c])[1..] == s[1..] + [c];
      UnderscoreBeforeUpperSnoc(s[1..], c);
    }
  }

  lemma DelimitStep(t: string, i: nat)
    requires 1 <= i < |t|
    ensures [t[0]] + UnderscoreBeforeUpper(t[1..i + 1]) == [t[0]] + UnderscoreBeforeUpper(t[1..i]) + Piece(t[i])
  {
    assert t[1..i + 1] == t[1..i] + [t[i]];
    UnderscoreBeforeUpperSnoc(t[1..i], t[i]);
    AppendAssoc([t[0]], UnderscoreBeforeUpper(t[1..i]), Piece(t[i]));
  }

  lemma AppendAssoc(a: string, b: string, c: string)
    ensures a + (b + c) == a + b + c
  {
  }

  /**
   * Inserts `_` before each upper-case letter after the first character of the
   * trimmed text; no case changes. Text that is white space only makes the
   * source index an empty array, hence the precondition.
   */
  method DelimitCapitalizedWordsWithUnderscore(oldText: string) returns (newText: string)
    requires oldText == [] || Trim(oldText) != []
    ensures newText == DelimitedText(oldText)
  {
    if oldText == [] {
      return [];
    }
    var oldTextChar := Trim(oldText);
    newText := [];
    var word := [oldTextChar[0]];
    for i := 1 to |oldTextChar|
      invariant newText + word == [oldTextChar[0]] + UnderscoreBeforeUpper(oldTextChar[1..i])
    {
      DelimitStep(oldTextChar, i);
      if IsUpper(oldTextChar[i]) {
        newText := newText + word;
        word := [Underscore, oldTextChar[i]];
      } else {
        AppendAssoc(newText, word, [oldTextChar[i]]);
        word := word + [oldTextChar[i]];
      }
    }
    assert oldTextChar[1..|oldTextChar|] == oldTextChar[1..];
    newText := newText + word;
  }

  function CountUpper(s: string): nat {
    if s == [] then 0 else (if IsUpper(s[0]) then 1 else 0) + CountUpper(s[1..])
  }

  /** One `_` more than the input for every upper-case letter after the first character. */
  lemma {:induction false} DelimitedLength(t: string)
    requires t != []
    ensures |DelimitedWords(t)| == |t| + CountUpper(t[1..])
  {
    UnderscoreBeforeUpperLength(t[1..]);
  }

  lemma {:induction false} UnderscoreBeforeUpperLength(s: string)
    ensures |UnderscoreBeforeUpper(s)| == |s| + CountUpper(s)
  {
    if s != [] {
      UnderscoreBeforeUpperLength(s[1..]);
    }
  }

  /** Removes every `_` that stands right before an upper-case letter. */
  function Undelimit(s: string): string {
    if |s| >= 2 && s[0] == Underscore && IsUpper(s[1]) then [s[1]] + Undelimit(s[2..])
    else if s == [] then []
    else [s[0]] + Undelimit(s[1..])
  }

  lemma {:induction false} UnderscoreBeforeUpperHead(s: string)
    ensures UnderscoreBeforeUpper(s) == [] || !IsUpper(UnderscoreBeforeUpper(s)[0])
  {
  }

  lemma {:induction false} UndelimitUnderscoreBeforeUpper(s: string)
    ensures Undelimit(UnderscoreBeforeUpper(s)) == s
  {
    if s != [] {
      var rest := UnderscoreBeforeUpper(s[1..]);
      UnderscoreBeforeUpperHead(s[1..]);
      UndelimitUnderscoreBeforeUpper(s[1..]);
      if IsUpper(s[0]) {
        assert UnderscoreBeforeUpper(s) == [Underscore, s[0]] + rest;
        assert ([Underscore, s[0]] + rest)[2..] == rest;
      } else {
        assert UnderscoreBeforeUpper(s) == [s[0]] + rest;
        assert ([s[0]] + rest)[1..] == rest;
      }
    }
  }

  /**
   * Delimiting loses nothing: dropping the inserted underscores gives back the
   * trimmed text, so no character's case or order changes.
   */
  lemma {:induction false} DelimitIsInvertible(t: string)
    requires t != []
    ensures Undelimit(DelimitedWords(t)) == t
  {
    var rest := UnderscoreBeforeUpper(t[1..]);
    UnderscoreBeforeUpperHead(t[1..]);
    UndelimitUnderscoreBeforeUpper(t[1..]);
    assert ([t[0]] + rest)[1..] == rest;
    assert DelimitedWords(t) == [t[0]] + rest;
  }

  // ---------------------------------------------------------------------------
  // ConvertCamelCaseToUnderscoreDelimited, ConvertPascalCaseToUnderscoreDelimited

  /** Lower case of the delimited form. */
  function UnderscoreDelimited(s: string): string
    requires s == [] || Trim(s) != []
  {
    Lower(DelimitedText(s))
  }

  /** Converts camelCase to lower-case underscore_delimited. */
  method ConvertCamelCaseToUnderscoreDelimited(oldText: string) returns (r: string)
    requires oldText == [] || Trim(oldText) != []
    ensures r == UnderscoreDelimited(oldText)
    ensures NoUpper(r)
  {
    var delimited := DelimitCapitalizedWordsWithUnderscore(oldText);
    r := Lower(delimited);
  }

  /** Converts PascalCase to lower-case underscore_delimited: the same computation as for camelCase. */
  method ConvertPascalCaseToUnderscoreDelimited(oldText: string) returns (r: string)
    requires oldText == [] || Trim(oldText) != []
    ensures r == UnderscoreDelimited(oldText)
    ensures NoUpper(r)
  {
    var delimited := DelimitCapitalizedWordsWithUnderscore(oldText);
    r := Lower(delimited);
  }

  // ---------------------------------------------------------------------------
  // The pieces of ConvertUnderscoreDelimitedToPascalCase

  /** Leading characters outside `[0-9a-zA-Z]` dropped. */
  function DropNonAlnum(s: string): (r: string)
    ensures |r| <= |s|
    ensures r == [] || IsAlnum(r[0])
  {
    if s != [] && !IsAlnum(s[0]) then DropNonAlnum(s[1..]) else s
  }

  /**
   * `Regex.Replace(s, "[^0-9a-zA-Z]+", "_")`: every maximal run of characters
   * outside `[0-9a-zA-Z]` becomes a single `_`.
   */
  function CollapseNonAlnum(s: string): (r: string)
    ensures s != [] ==> r != [] && (r[0] == Underscore <==> !IsAlnum(s[0]))
    decreases |s|
  {
    if s == [] then []
    else if IsAlnum(s[0]) then [s[0]] + CollapseNonAlnum(s[1..])
    else [Underscore] + CollapseNonAlnum(DropNonAlnum(s[1..]))
  }

  /**
   * `String.Split(d)`: the pieces between the occurrences of `d`, empty ones
   * included; there is always at least one.
   */
  function Split(s: string, d: char): (r: seq<string>)
    ensures |r| >= 1
  {
    if s == [] then [[]]
    else
      var rest := Split(s[1..], d);
      if s[0] == d then [[]] + rest else [[s[0]] + rest[0]] + rest[1..]
  }

  /** `String.Join`: the pieces with `d` between each two. */
  function Join(tokens: seq<string>, d: char): string
    requires |tokens| >= 1
  {
    if |tokens| == 1 then tokens[0] else tokens[0] + [d] + Join(tokens[1..], d)
  }

  /** Splitting loses nothing: joining the pieces again gives back the text. */
  lemma {:induction false} JoinSplit(s: string, d: char)
    ensures Join(Split(s, d), d) == s
  {
    if s != [] {
      var rest := Split(s[1..], d);
      JoinSplit(s[1..], d);
      if s[0] == d {
        assert Split(s, d)[1..] == rest;
      } else {
        var r := Split(s, d);
        assert r[1..] == rest[1..];
        if |rest| == 1 {
          assert Join(r, d) == [s[0]] + rest[0];
        } else {
          assert Join(r, d) == [s[0]] + rest[0] + [d] + Join(rest[1..], d);
        }
      }
    }
  }

  /** Splitting at one occurrence of the separator splits the two sides apart. */
  lemma {:induction false} SplitAround(a: string, b: string, d: char)
    ensures Split(a + [d] + b, d) == Split(a, d) + Split(b, d)
  {
    if a == [] {
      assert a + [d] + b == [d] + b;
      assert ([d] + b)[1..] == b;
    } else {
      assert (a + [d] + b)[1..] == a[1..] + [d] + b;
      SplitAround(a[1..], b, d);
    }
  }

  /**
   * .NET word separators among ASCII characters: everything but letters,
   * digits and the apostrophe, which `ToTitleCase` keeps inside a word.
   */
  predicate IsWordSeparator(c: char) { !IsAlnum(c) && c != '\'' }

  /** Whether the title-casing scan is inside a word after reading `c`. */
  function NextState(inWord: bool, c: char): bool {
    if IsLetter(c) then true else if IsWordSeparator(c) then false else inWord
  }

  /** A letter that starts a word is raised; anything else is kept. */
  function TitleChar(inWord: bool, c: char): char {
    if IsLetter(c) && !inWord then ToUpper(c) else c
  }

  /**
   * `TextInfo.ToTitleCase` on lower-case text, scanning from state `inWord`:
   * the first letter of each word is raised. (On text with upper-case letters
   * .NET would also lower the rest of a word unless it is all capitals; both
   * callers lower the text first, so that never arises.)
   */
  function TitleFrom(s: string, inWord: bool): (r: string)
    ensures |r| == |s|
  {
    if s == [] then []
    else [TitleChar(inWord, s[0])] + TitleFrom(s[1..], NextState(inWord, s[0]))
  }

  function TitleCase(s: string): string {
    TitleFrom(s, false)
  }

  /** The scan's state after reading all of `s`. */
  function StateAfter(s: string, inWord: bool): bool {
    if s == [] then inWord else StateAfter(s[1..], NextState(inWord, s[0]))
  }

  lemma {:induction false} TitleFromAppend(x: string, y: string, inWord: bool)
    ensures TitleFrom(x + y, inWord) == TitleFrom(x, inWord) + TitleFrom(y, StateAfter(x, inWord))
  {
    if x == [] {
      assert x + y == y;
    } else {
      assert (x + y)[1..] == x[1..] + y;
      TitleFromAppend(x[1..], y, NextState(inWord, x[0]));
      assert TitleFrom(x + y, inWord)
        == [TitleChar(inWord, x[0])] + TitleFrom(x[1..] + y, NextState(inWord, x[0]));
    }
  }

  /**
   * Each character of the title-cased text depends only on the state the scan
   * reached before it: a letter is raised exactly when no word is open there.
   */
  lemma {:induction false} TitleFromAt(s: string, inWord: bool, i: nat)
    requires i < |s|
    ensures TitleFrom(s, inWord)[i] == TitleChar(StateAfter(s[..i], inWord), s[i])
  {
    if i > 0 {
      assert s[1..][..i - 1] == s[..i][1..];
      TitleFromAt(s[1..], NextState(inWord, s[0]), i - 1);
    }
  }

  /** Title-casing changes the case of letters and nothing else. */
  lemma TitleFromOnlyRaises(s: string, inWord: bool)
    ensures Lower(TitleFrom(s, inWord)) == Lower(s)
    ensures AllAlnum(s) ==> AllAlnum(TitleFrom(s, inWord))
  {
    var r := TitleFrom(s, inWord);
    forall i | 0 <= i < |s|
      ensures ToLower(r[i]) == ToLower(s[i]) && IsAlnum(r[i]) == IsAlnum(s[i])
    {
      TitleFromAt(s, inWord, i);
      CaseRoundTrip(s[i]);
    }
  }

  /** Inside a run of letters and digits the scan stays in the word. */
  lemma {:induction false} StaysInWord(s: string)
    requires AllAlnum(s)
    ensures StateAfter(s, true)
  {
    if s != [] {
      StaysInWord(s[1..]);
    }
  }

  /** The title case of the pieces, concatenated. */
  function ConcatTitled(tokens: seq<string>): string {
    if tokens == [] then [] else TitleCase(tokens[0]) + ConcatTitled(tokens[1..])
  }

  lemma {:induction false} ConcatTitledSnoc(tokens: seq<string>, t: string)
    ensures ConcatTitled(tokens + [t]) == ConcatTitled(tokens) + TitleCase(t)
  {
    if tokens != [] {
      assert (tokens + [t])[1..] == tokens[1..] + [t];
      ConcatTitledSnoc(tokens[1..], t);
    }
  }

  lemma ConcatTitledPrefix(tokens: seq<string>, k: nat)
    requires k < |tokens|
    ensures ConcatTitled(tokens[..k + 1]) == ConcatTitled(tokens[..k]) + TitleCase(tokens[k])
  {
    assert tokens[..k + 1] == tokens[..k] + [tokens[k]];
    ConcatTitledSnoc(tokens[..k], tokens[k]);
  }

  /** The concatenation of the pieces. */
  function Concat(tokens: seq<string>): string {
    if tokens == [] then [] else tokens[0] + Concat(tokens[1..])
  }

  lemma ConcatCons(t: string, ts: seq<string>)
    ensures Concat([t] + ts) == t + Concat(ts)
  {
    assert ([t] + ts)[1..] == ts;
  }

  /** The characters of `s` in `[0-9a-zA-Z]`, in order. */
  function AlnumOnly(s: string): (r: string)
    ensures AllAlnum(r)
  {
    if s == [] then [] else (if IsAlnum(s[0]) then [s[0]] else []) + AlnumOnly(s[1..])
  }

  // ---------------------------------------------------------------------------
  // ConvertUnderscoreDelimitedToPascalCase

  /**
   * The tokens of the trimmed text, with runs of other characters made into
   * `_`, lowered and split on `_`, each title-cased and concatenated.
   */
  function PascalBody(s: string): string {
    ConcatTitled(Split(Trim(Lower(CollapseNonAlnum(Trim(s)))), Underscore))
  }

  /** `ConvertToCapitalized(UnderscorecharWord)`, the word that stands for an edge `_`. */
  function EdgeWord(): string {
    UnderscorecharNotBlank();
    ConvertToCapitalized(UnderscorecharWord)
  }

  /** Appends the edge word when `s` ends in `_` and underscores are not preserved. */
  function WithTrailingWord(s: string, preserve: bool, text: string): string
    requires s != []
  {
    if !preserve && s[|s| - 1] == Underscore then text + EdgeWord() else text
  }

  /** Prepends the edge word when `s` starts with `_` and underscores are not preserved. */
  function WithLeadingWord(s: string, preserve: bool, text: string): string
    requires s != []
  {
    if !preserve && s[0] == Underscore then EdgeWord() + text else text
  }

  /**
   * The result of `ConvertUnderscoreDelimitedToPascalCase(s, preserve)`. Without
   * `preserve`, a trailing `_` of the untrimmed text puts the word Underscorechar
   * at the end and a leading `_` puts it in front; with `preserve` those
   * underscores are simply dropped.
   */
  function PascalCase(s: string, preserve: bool): string {
    if s == [] then [] else WithLeadingWord(s, preserve, WithTrailingWord(s, preserve, PascalBody(s)))
  }

  method ConvertUnderscoreDelimitedToPascalCaseWith(oldText: string, preserveLeadingAndTrailingUnderscores: bool)
    returns (newText: string)
    ensures newText == PascalCase(oldText, preserveLeadingAndTrailingUnderscores)
  {
    if oldText == [] {
      return [];
    }
    newText := Trim(oldText);
    newText := CollapseNonAlnum(newText);
    var token := Split(Trim(Lower(newText)), Underscore);
    newText := [];
    for k := 0 to |token|
      invariant newText == ConcatTitled(token[..k])
    {
      ConcatTitledPrefix(token, k);
      newText := newText + TitleCase(token[k]);
    }
    assert token[..|token|] == token;
    UnderscorecharNotBlank();
    if !preserveLeadingAndTrailingUnderscores && oldText[|oldText| - 1] == Underscore {
      newText := newText + ConvertToCapitalized(UnderscorecharWord);
    }
    if !preserveLeadingAndTrailingUnderscores && oldText[0] == Underscore {
      newText := ConvertToCapitalized(UnderscorecharWord) + newText;
    }
  }

  /** The word injected in front of the body, if any. */
  function LeadingWord(s: string, preserve: bool): string {
    if !preserve && s != [] && s[0] == Underscore then UnderscorecharTitle else []
  }

  /** The word injected after the body, if any. */
  function TrailingWord(s: string, preserve: bool): string {
    if !preserve && s != [] && s[|s| - 1] == Underscore then UnderscorecharTitle else []
  }

  /** Pascal case is the body with the word Underscorechar for each edge `_` not preserved. */
  lemma PascalCaseParts(s: string, preserve: bool)
    requires s != []
    ensures PascalCase(s, preserve) == LeadingWord(s, preserve) + (PascalBody(s) + TrailingWord(s, preserve))
  {
    UnderscorecharCapitalized();
    var body := PascalBody(s);
    var back := TrailingWord(s, preserve);
    assert WithTrailingWord(s, preserve, body) == body + back;
  }

  // ---------------------------------------------------------------------------
  // ConvertToCapitalized

  /**
   * The trimmed value with its first character raised and the rest lowered.
   * A value of white space only makes the source index an empty string.
   */
  function ConvertToCapitalized(value: string): (r: string)
    requires value == [] || Trim(value) != []
    ensures value == [] ==> r == []
    ensures value != [] ==> (r != [] && Lower(r) == Lower(Trim(value))
      && !IsLower(r[0]) && NoUpper(r[1..]))
  {
    if value == [] then []
    else
      var t := Trim(value);
      CapitalizedShape(t);
      [ToUpper(t[0])] + Lower(t[1..])
  }

  /** Raising the head and lowering the tail keeps the lowered text and the case shape. */
  lemma CapitalizedShape(t: string)
    requires t != []
    ensures var r := [ToUpper(t[0])] + Lower(t[1..]);
      r != [] && Lower(r) == Lower(t) && !IsLower(r[0]) && NoUpper(r[1..])
  {
    var tail := Lower(t[1..]);
    var r := [ToUpper(t[0])] + tail;
    CaseRoundTrip(t[0]);
    LowerIdempotent(t[1..]);
    assert r[1..] == tail;
    assert Lower(r)[0] == ToLower(t[0]) == Lower(t)[0];
    forall i | 1 <= i < |t|
      ensures Lower(r)[i] == Lower(t)[i]
    {
      assert r[i] == tail[i - 1];
    }
  }

  lemma UnderscorecharNotBlank()
    ensures Trim(UnderscorecharWord) != []
  {
    TrimEmpty(UnderscorecharWord);
    assert !IsWhiteSpace(UnderscorecharWord[0]);
  }

  /** The edge word is Underscorechar. */
  lemma UnderscorecharCapitalized()
    ensures EdgeWord() == UnderscorecharTitle
  {
    UnderscorecharWordShape();
    CapitalizedOfLowerWord(UnderscorecharWord);
  }

  lemma UnderscorecharWordShape()
    ensures NoWhiteSpace(UnderscorecharWord) && NoUpper(UnderscorecharWord)
    ensures [ToUpper(UnderscorecharWord[0])] + UnderscorecharWord[1..] == UnderscorecharTitle
  {
  }

  /** A lower-case word without white space is capitalised by raising its first letter. */
  lemma CapitalizedOfLowerWord(w: string)
    requires w != [] && NoWhiteSpace(w) && NoUpper(w)
    ensures ConvertToCapitalized(w) == [ToUpper(w[0])] + w[1..]
  {
    TrimOfNoWhiteSpace(w);
    LowerOfLowercase(w[1..]);
  }

  // ---------------------------------------------------------------------------
  // What Pascal case keeps of the input

  /** No character of `s` lies outside `[0-9a-zA-Z]` except `d`. */
  predicate AlnumOr(s: string, d: char) {
    forall i :: 0 <= i < |s| ==> IsAlnum(s[i]) || s[i] == d
  }

  lemma {:induction false} AlnumOnlyAppend(a: string, b: string)
    ensures AlnumOnly(a + b) == AlnumOnly(a) + AlnumOnly(b)
  {
    if a == [] {
      assert a + b == b;
    } else {
      var head := if IsAlnum(a[0]) then [a[0]] else [];
      assert (a + b)[0] == a[0];
      assert (a + b)[1..] == a[1..] + b;
      AlnumOnlyAppend(a[1..], b);
      assert AlnumOnly(a + b) == head + (AlnumOnly(a[1..]) + AlnumOnly(b));
      assert AlnumOnly(a) == head + AlnumOnly(a[1..]);
    }
  }

  lemma {:induction false} AlnumOnlyOfAlnum(s: string)
    requires AllAlnum(s)
    ensures AlnumOnly(s) == s
  {
    if s != [] {
      AlnumOnlyOfAlnum(s[1..]);
    }
  }

  lemma {:induction false} AlnumOnlyTrimStart(s: string)
    ensures AlnumOnly(TrimStart(s)) == AlnumOnly(s)
  {
    if s != [] && IsWhiteSpace(s[0]) {
      AlnumOnlyTrimStart(s[1..]);
      TrimStartStep(s);
      AlnumOnlyDropsBlank(s);
    } else {
      TrimStartStep(s);
    }
  }

  lemma TrimStartStep(s: string)
    ensures s != [] && IsWhiteSpace(s[0]) ==> TrimStart(s) == TrimStart(s[1..])
    ensures !(s != [] && IsWhiteSpace(s[0])) ==> TrimStart(s) == s
  {
  }

  lemma AlnumOnlyDropsBlank(s: string)
    requires s != [] && IsWhiteSpace(s[0])
    ensures AlnumOnly(s) == AlnumOnly(s[1..])
  {
    assert !IsAlnum(s[0]);
  }

  lemma {:induction false} AlnumOnlyTrimEnd(s: string)
    ensures AlnumOnly(TrimEnd(s)) == AlnumOnly(s)
  {
    if s != [] && IsWhiteSpace(s[|s| - 1]) {
      var init := s[..|s| - 1];
      AlnumOnlyTrimEnd(init);
      TrimEndStep(s);
      AlnumOnlyDropsTrailingBlank(s);
    } else {
      TrimEndStep(s);
    }
  }

  lemma TrimEndStep(s: string)
    ensures s != [] && IsWhiteSpace(s[|s| - 1]) ==> TrimEnd(s) == TrimEnd(s[..|s| - 1])
    ensures !(s != [] && IsWhiteSpace(s[|s| - 1])) ==> TrimEnd(s) == s
  {
  }

  lemma AlnumOnlyDropsTrailingBlank(s: string)
    requires s != [] && IsWhiteSpace(s[|s| - 1])
    ensures AlnumOnly(s) == AlnumOnly(s[..|s| - 1])
  {
    var init := s[..|s| - 1];
    var last := [s[|s| - 1]];
    assert s == init + last;
    AlnumOnlyAppend(init, last);
    assert last[1..] == [];
    assert AlnumOnly(last) == [];
  }

  /** Trimming removes white space only, which has no letters or digits. */
  lemma AlnumOnlyTrim(s: string)
    ensures AlnumOnly(Trim(s)) == AlnumOnly(s)
  {
    AlnumOnlyTrimStart(s);
    AlnumOnlyTrimEnd(TrimStart(s));
  }

  lemma {:induction false} AlnumOnlyLower(s: string)
    ensures AlnumOnly(Lower(s)) == Lower(AlnumOnly(s))
  {
    if s != [] {
      CaseRoundTrip(s[0]);
      assert Lower(s)[1..] == Lower(s[1..]);
      AlnumOnlyLower(s[1..]);
      LowerAppend(if IsAlnum(s[0]) then [s[0]] else [], AlnumOnly(s[1..]));
    }
  }

  lemma {:induction false} AlnumOnlyDrop(s: string)
    ensures AlnumOnly(DropNonAlnum(s)) == AlnumOnly(s)
  {
    if s != [] && !IsAlnum(s[0]) {
      AlnumOnlyDrop(s[1..]);
    }
  }

  /** The regular expression only replaces characters outside `[0-9a-zA-Z]`. */
  lemma {:induction false} CollapseKeepsAlnum(s: string)
    ensures AlnumOnly(CollapseNonAlnum(s)) == AlnumOnly(s)
    ensures AlnumOr(CollapseNonAlnum(s), Underscore)
    decreases |s|
  {
    if s != [] {
      var r := CollapseNonAlnum(s);
      if IsAlnum(s[0]) {
        CollapseKeepsAlnum(s[1..]);
        assert r == [s[0]] + CollapseNonAlnum(s[1..]);
        assert r[1..] == CollapseNonAlnum(s[1..]);
      } else {
        var d := DropNonAlnum(s[1..]);
        CollapseKeepsAlnum(d);
        AlnumOnlyDrop(s[1..]);
        assert r == [Underscore] + CollapseNonAlnum(d);
        assert r[1..] == CollapseNonAlnum(d);
      }
    }
  }

  lemma AlnumOrLower(v: string, d: char)
    requires AlnumOr(v, d) && !IsUpper(d)
    ensures AlnumOr(Lower(v), d)
  {
    forall i | 0 <= i < |v|
      ensures IsAlnum(Lower(v)[i]) || Lower(v)[i] == d
    {
      CaseRoundTrip(v[i]);
    }
  }

  lemma AlnumOrTrim(v: string, d: char)
    requires AlnumOr(v, d)
    ensures AlnumOr(Trim(v), d)
  {
    var t := TrimStart(v);
    assert t == v[|v| - |t|..];
    assert AlnumOr(t, d);
    assert TrimEnd(t) == t[..|TrimEnd(t)|];
  }

  /**
   * Splitting text of letters, digits and separators and concatenating the
   * pieces leaves the letters and digits.
   */
  lemma {:induction false} ConcatSplit(v: string, d: char)
    requires AlnumOr(v, d) && !IsAlnum(d)
    ensures Concat(Split(v, d)) == AlnumOnly(v)
  {
    if v != [] {
      var rest := Split(v[1..], d);
      ConcatSplit(v[1..], d);
      if v[0] == d {
        ConcatCons([], rest);
      } else {
        ConcatCons([v[0]] + rest[0], rest[1..]);
        ConcatCons(rest[0], rest[1..]);
        assert [rest[0]] + rest[1..] == rest;
      }
    }
  }

  /** Title-casing each piece changes the case of letters and nothing else. */
  lemma {:induction false} LowerConcatTitled(ts: seq<string>)
    ensures Lower(ConcatTitled(ts)) == Lower(Concat(ts))
  {
    if ts != [] {
      LowerConcatTitled(ts[1..]);
      TitleFromOnlyRaises(ts[0], false);
      LowerAppend(TitleCase(ts[0]), ConcatTitled(ts[1..]));
      LowerAppend(ts[0], Concat(ts[1..]));
    }
  }

  /**
   * The Pascal-case body holds exactly the letters and digits of the input,
   * in order; only the case of letters changes.
   */
  lemma PascalBodyLetters(s: string)
    ensures Lower(PascalBody(s)) == Lower(AlnumOnly(s))
    ensures AllAlnum(PascalBody(s))
  {
    PascalBodyLower(s);
    LowerMatchAlnum(PascalBody(s), AlnumOnly(s));
  }

  /** The cleaned text the body splits keeps the input's letters and digits, lowered. */
  lemma CleanedLetters(s: string)
    ensures var v := Trim(Lower(CollapseNonAlnum(Trim(s))));
      AlnumOr(v, Underscore) && AlnumOnly(v) == Lower(AlnumOnly(s))
  {
    var c := CollapseNonAlnum(Trim(s));
    CollapseKeepsAlnum(Trim(s));
    AlnumOrLower(c, Underscore);
    AlnumOrTrim(Lower(c), Underscore);
    AlnumOnlyTrim(Lower(c));
    AlnumOnlyLower(c);
    AlnumOnlyTrim(s);
  }

  lemma PascalBodyLower(s: string)
    ensures Lower(PascalBody(s)) == Lower(AlnumOnly(s))
  {
    var v := Trim(Lower(CollapseNonAlnum(Trim(s))));
    CleanedLetters(s);
    SplitLetters(v, AlnumOnly(s));
  }

  /** Title-casing the pieces of cleaned text keeps its letters and digits up to case. */
  lemma SplitLetters(v: string, a: string)
    requires AlnumOr(v, Underscore) && AlnumOnly(v) == Lower(a)
    ensures Lower(ConcatTitled(Split(v, Underscore))) == Lower(a)
  {
    ConcatSplit(v, Underscore);
    LowerConcatTitled(Split(v, Underscore));
    LowerIdempotent(a);
  }

  /** Text that lowers to the lowered form of letters and digits is letters and digits. */
  lemma LowerMatchAlnum(r: string, a: string)
    requires Lower(r) == Lower(a) && AllAlnum(a)
    ensures AllAlnum(r)
  {
    forall i | 0 <= i < |r|
      ensures IsAlnum(r[i])
    {
      assert Lower(r)[i] == Lower(a)[i];
      CaseRoundTrip(r[i]);
      CaseRoundTrip(a[i]);
    }
  }

  /** Title-cased pieces never start with a lower-case letter. */
  lemma {:induction false} ConcatTitledStart(ts: seq<string>)
    ensures ConcatTitled(ts) == [] || !IsLower(ConcatTitled(ts)[0])
  {
    if ts != [] {
      ConcatTitledStart(ts[1..]);
      if ts[0] != [] {
        CaseRoundTrip(ts[0][0]);
        assert ConcatTitled(ts)[0] == TitleChar(false, ts[0][0]);
      }
    }
  }

  lemma UnderscorecharIsAlnum()
    ensures AllAlnum(UnderscorecharTitle)
  {
  }

  lemma AllAlnumAppend(a: string, b: string)
    requires AllAlnum(a) && AllAlnum(b)
    ensures AllAlnum(a + b)
  {
    assert forall i :: 0 <= i < |b| ==> (a + b)[|a| + i] == b[i];
  }

  /** Pascal case holds only letters and digits. */
  lemma PascalCaseAlnum(s: string, preserve: bool)
    ensures AllAlnum(PascalCase(s, preserve))
  {
    if s != [] {
      var body, front, back := PascalBody(s), LeadingWord(s, preserve), TrailingWord(s, preserve);
      PascalCaseParts(s, preserve);
      PascalBodyLetters(s);
      UnderscorecharIsAlnum();
      assert AllAlnum(front) && AllAlnum(back);
      AllAlnumAppend(body, back);
      AllAlnumAppend(front, body + back);
    }
  }

  /** Pascal case never starts with a lower-case letter. */
  lemma PascalCaseStart(s: string, preserve: bool)
    ensures PascalCase(s, preserve) == [] || !IsLower(PascalCase(s, preserve)[0])
  {
    if s != [] {
      PascalCaseParts(s, preserve);
      ConcatTitledStart(Split(Trim(Lower(CollapseNonAlnum(Trim(s)))), Underscore));
      PartsStart(LeadingWord(s, preserve), PascalBody(s), TrailingWord(s, preserve));
    }
  }

  /** Edge words and a body that do not start in lower case make text that does not either. */
  lemma PartsStart(front: string, body: string, back: string)
    requires front == [] || front == UnderscorecharTitle
    requires back == [] || back == UnderscorecharTitle
    requires body == [] || !IsLower(body[0])
    ensures var r := front + (body + back); r == [] || !IsLower(r[0])
  {
    var r := front + (body + back);
    if front != [] {
      assert r[0] == UnderscorecharTitle[0];
    } else if body != [] {
      assert r[0] == body[0];
    } else if back != [] {
      assert r[0] == UnderscorecharTitle[0];
    }
  }

  /** Without an injected word, Pascal case is the body alone. */
  lemma PascalCaseIsBody(s: string, preserve: bool)
    requires s != [] && (preserve || (s[0] != Underscore && s[|s| - 1] != Underscore))
    ensures PascalCase(s, preserve) == PascalBody(s)
  {
  }

  /**
   * Unless a word is injected at an edge, the letters and digits of Pascal
   * case are exactly the input's, in order, with only their case changed.
   */
  lemma PascalCaseLetters(s: string, preserve: bool)
    requires preserve || s == [] || (s[0] != Underscore && s[|s| - 1] != Underscore)
    ensures Lower(PascalCase(s, preserve)) == Lower(AlnumOnly(s))
  {
    if s != [] {
      PascalCaseIsBody(s, preserve);
      PascalBodyLetters(s);
    }
  }

  /**
   * Pascal case is empty exactly when the input has no letter or digit and
   * no word is injected at an edge; camel case then fails.
   */
  lemma PascalEmpty(s: string, preserve: bool)
    requires s != []
    ensures PascalCase(s, preserve) == []
      <==> AlnumOnly(s) == [] && LeadingWord(s, preserve) == [] && TrailingWord(s, preserve) == []
  {
    PascalCaseParts(s, preserve);
    PascalBodyLetters(s);
  }

  // ---------------------------------------------------------------------------
  // Splitting and title-casing single words

  /** Text without the separator is one piece. */
  lemma {:induction false} SplitNoDelim(p: string, d: char)
    requires forall i :: 0 <= i < |p| ==> p[i] != d
    ensures Split(p, d) == [p]
  {
    if p != [] {
      SplitNoDelim(p[1..], d);
      assert [p[0]] + p[1..] == p;
    }
  }

  /** A separator after a piece without separators ends that piece. */
  lemma {:induction false} SplitAfter(p: string, q: string, d: char)
    requires forall i :: 0 <= i < |p| ==> p[i] != d
    ensures Split(p + [d] + q, d) == [p] + Split(q, d)
  {
    if p == [] {
      assert p + [d] + q == [d] + q;
      assert ([d] + q)[1..] == q;
    } else {
      assert (p + [d] + q)[1..] == p[1..] + [d] + q;
      SplitAfter(p[1..], q, d);
      assert [p[0]] + p[1..] == p;
    }
  }

  /** Inside a word of letters and digits title-casing changes nothing. */
  lemma {:induction false} TitleInWord(w: string)
    requires AllAlnum(w)
    ensures TitleFrom(w, true) == w
  {
    if w != [] {
      TitleInWord(w[1..]);
    }
  }

  /** A word of letters and digits starting with a letter: only that letter is raised. */
  lemma TitleOfWord(w: string)
    requires AllAlnum(w) && w != [] && IsLetter(w[0])
    ensures TitleCase(w) == [ToUpper(w[0])] + w[1..]
  {
    TitleInWord(w[1..]);
  }

  /** `_` only ever stands right before a letter or digit. */
  predicate SingleSeparators(v: string) {
    forall i :: 0 <= i < |v| ==> IsAlnum(v[i]) || (v[i] == Underscore && StartsAlnum(v[i + 1..]))
  }

  predicate StartsAlnum(s: string) { s != [] && IsAlnum(s[0]) }

  lemma SingleSeparatorsAppend(a: string, b: string)
    requires SingleSeparators(a) && SingleSeparators(b)
    ensures SingleSeparators(a + b)
  {
    var v := a + b;
    forall i | 0 <= i < |v|
      ensures IsAlnum(v[i]) || (v[i] == Underscore && StartsAlnum(v[i + 1..]))
    {
      if i < |a| {
        assert v[i] == a[i];
        if !IsAlnum(a[i]) {
          assert v[i + 1..] == a[i + 1..] + b;
        }
      } else {
        assert v[i] == b[i - |a|];
        if !IsAlnum(b[i - |a|]) {
          assert v[i + 1..] == b[i - |a| + 1..];
        }
      }
    }
  }

  lemma SingleSeparatorsTail(v: string)
    requires v != [] && SingleSeparators(v)
    ensures SingleSeparators(v[1..])
  {
    var w := v[1..];
    forall i | 0 <= i < |w|
      ensures IsAlnum(w[i]) || (w[i] == Underscore && StartsAlnum(w[i + 1..]))
    {
      assert w[i] == v[i + 1];
      assert w[i + 1..] == v[i + 2..];
    }
  }

  /** Text with single separators between letters and digits is left as it is. */
  lemma {:induction false} CollapseIdentity(v: string)
    requires SingleSeparators(v)
    ensures CollapseNonAlnum(v) == v
    decreases |v|
  {
    if v != [] {
      var w := v[1..];
      SingleSeparatorsTail(v);
      CollapseIdentity(w);
      if !IsAlnum(v[0]) {
        assert StartsAlnum(v[1..]);
      }
      assert [v[0]] + w == v;
    }
  }

  // ---------------------------------------------------------------------------
  // Round trips between underscore_delimited and Pascal case

  lemma LowerUnderscoreBeforeUpperCons(r: string)
    requires r != []
    ensures Lower(UnderscoreBeforeUpper(r)) == Lower(Piece(r[0])) + Lower(UnderscoreBeforeUpper(r[1..]))
  {
    LowerAppend(Piece(r[0]), UnderscoreBeforeUpper(r[1..]));
  }

  /** Lowering the delimited form of letters and digits leaves single separators. */
  lemma {:induction false} DelimitedSeparators(r: string)
    requires AllAlnum(r)
    ensures SingleSeparators(Lower(UnderscoreBeforeUpper(r)))
  {
    if r != [] {
      LowerUnderscoreBeforeUpperCons(r);
      DelimitedSeparators(r[1..]);
      CaseRoundTrip(r[0]);
      SingleSeparatorsAppend(Lower(Piece(r[0])), Lower(UnderscoreBeforeUpper(r[1..])));
    }
  }

  lemma ConcatTitledCons(t: string, ts: seq<string>)
    ensures ConcatTitled([t] + ts) == TitleCase(t) + ConcatTitled(ts)
  {
    assert ([t] + ts)[1..] == ts;
  }

  /**
   * The heart of the round trip: after a first piece `p`, the lowered delimited
   * form of `r` splits into pieces whose title case gives `r` back.
   */
  lemma {:induction false} RoundTripCore(p: string, r: string)
    requires p != [] && IsLetter(p[0]) && AllAlnum(p) && NoUpper(p) && AllAlnum(r)
    ensures ConcatTitled(Split(p + Lower(UnderscoreBeforeUpper(r)), Underscore)) == [ToUpper(p[0])] + p[1..] + r
    decreases |r|
  {
    if r == [] {
      assert p + Lower(UnderscoreBeforeUpper(r)) == p;
      SplitNoDelim(p, Underscore);
      ConcatTitledCons(p, []);
      TitleOfWord(p);
    } else {
      var rest := Lower(UnderscoreBeforeUpper(r[1..]));
      CaseRoundTrip(r[0]);
      if IsUpper(r[0]) {
        var q := [ToLower(r[0])] + rest;
        DelimitedUpperStep(p, r);
        SplitAfter(p, q, Underscore);
        ConcatTitledCons(p, Split(q, Underscore));
        TitleOfWord(p);
        RoundTripCore([ToLower(r[0])], r[1..]);
        UpperStepResult(p, r);
      } else {
        var p' := p + [r[0]];
        DelimitedOtherStep(p, r);
        RoundTripCore(p', r[1..]);
        OtherStepResult(p, r);
      }
    }
  }

  lemma DelimitedUpperStep(p: string, r: string)
    requires r != [] && IsUpper(r[0])
    ensures p + Lower(UnderscoreBeforeUpper(r))
      == p + [Underscore] + ([ToLower(r[0])] + Lower(UnderscoreBeforeUpper(r[1..])))
  {
    var rest := Lower(UnderscoreBeforeUpper(r[1..]));
    LowerUnderscoreBeforeUpperCons(r);
    assert Lower(Piece(r[0])) == [Underscore, ToLower(r[0])];
    AppendAssoc(p, [Underscore], [ToLower(r[0])] + rest);
    AppendAssoc([Underscore], [ToLower(r[0])], rest);
  }

  lemma DelimitedOtherStep(p: string, r: string)
    requires r != [] && !IsUpper(r[0])
    ensures p + Lower(UnderscoreBeforeUpper(r)) == (p + [r[0]]) + Lower(UnderscoreBeforeUpper(r[1..]))
  {
    var rest := Lower(UnderscoreBeforeUpper(r[1..]));
    LowerUnderscoreBeforeUpperCons(r);
    assert Lower(Piece(r[0])) == [r[0]];
    AppendAssoc(p, [r[0]], rest);
  }

  lemma UpperStepResult(p: string, r: string)
    requires p != [] && r != [] && IsUpper(r[0])
    ensures [ToUpper(p[0])] + p[1..] + ([ToUpper(ToLower(r[0]))] + [ToLower(r[0])][1..] + r[1..])
      == [ToUpper(p[0])] + p[1..] + r
  {
    CaseRoundTrip(r[0]);
    assert [ToUpper(ToLower(r[0]))] + [ToLower(r[0])][1..] + r[1..] == r;
  }

  lemma OtherStepResult(p: string, r: string)
    requires p != [] && r != []
    ensures var p' := p + [r[0]]; [ToUpper(p'[0])] + p'[1..] + r[1..] == [ToUpper(p[0])] + p[1..] + r
  {
    var p' := p + [r[0]];
    assert p'[0] == p[0] && p'[1..] == p[1..] + [r[0]];
    assert [r[0]] + r[1..] == r;
  }

  /** Text of letters, digits and single separators is white-space free. */
  lemma SingleSeparatorsNoWhiteSpace(v: string)
    requires SingleSeparators(v)
    ensures NoWhiteSpace(v)
  {
    forall i | 0 <= i < |v|
      ensures !IsWhiteSpace(v[i])
    {
    }
  }

  /**
   * The lower-case underscore_delimited form of a word of letters and digits:
   * its first character lowered, then the lowered delimited rest.
   */
  lemma UnderscoreDelimitedOfWord(x: string)
    requires x != [] && AllAlnum(x)
    ensures x == [] || Trim(x) != []
    ensures UnderscoreDelimited(x) == [ToLower(x[0])] + Lower(UnderscoreBeforeUpper(x[1..]))
    ensures SingleSeparators(UnderscoreDelimited(x)) && NoUpper(UnderscoreDelimited(x))
  {
    assert NoWhiteSpace(x);
    TrimOfNoWhiteSpace(x);
    assert DelimitedText(x) == [x[0]] + UnderscoreBeforeUpper(x[1..]);
    LowerAppend([x[0]], UnderscoreBeforeUpper(x[1..]));
    assert Lower([x[0]]) == [ToLower(x[0])];
    DelimitedSeparators(x[1..]);
    CaseRoundTrip(x[0]);
    SingleSeparatorsAppend([ToLower(x[0])], Lower(UnderscoreBeforeUpper(x[1..])));
    LowerIdempotent(DelimitedText(x));
  }

  /** On lower-case text with single separators, Pascal case title-cases the pieces directly. */
  lemma PascalOfCleanText(v: string, preserve: bool)
    requires v != [] && SingleSeparators(v) && NoUpper(v) && IsAlnum(v[0])
    ensures PascalCase(v, preserve) == ConcatTitled(Split(v, Underscore))
  {
    CleanTextBody(v);
    CleanTextEnds(v);
    PascalCaseIsBody(v, preserve);
  }

  lemma CleanTextEnds(v: string)
    requires v != [] && SingleSeparators(v)
    ensures IsAlnum(v[|v| - 1])
  {
    assert v[|v|..] == [];
  }

  lemma CleanTextBody(v: string)
    requires SingleSeparators(v) && NoUpper(v)
    ensures PascalBody(v) == ConcatTitled(Split(v, Underscore))
  {
    SingleSeparatorsNoWhiteSpace(v);
    TrimOfNoWhiteSpace(v);
    CollapseIdentity(v);
    LowerOfLowercase(v);
  }

  lemma RoundTripFromFirst(c: char, r: string)
    requires IsLetter(c) && AllAlnum(r)
    ensures ConcatTitled(Split([ToLower(c)] + Lower(UnderscoreBeforeUpper(r)), Underscore)) == [ToUpper(c)] + r
  {
    var first := [ToLower(c)];
    CaseRoundTrip(c);
    RoundTripCore(first, r);
    assert first[1..] == [];
    assert [ToUpper(first[0])] + [] == [ToUpper(c)];
  }

  lemma PascalOfDelimitedForm(c: char, r: string, preserve: bool)
    requires IsLetter(c) && AllAlnum(r)
    ensures PascalCase([ToLower(c)] + Lower(UnderscoreBeforeUpper(r)), preserve) == [ToUpper(c)] + r
  {
    var v := [ToLower(c)] + Lower(UnderscoreBeforeUpper(r));
    CaseRoundTrip(c);
    DelimitedSeparators(r);
    SingleSeparatorsAppend([ToLower(c)], Lower(UnderscoreBeforeUpper(r)));
    LowerIdempotent(UnderscoreBeforeUpper(r));
    assert NoUpper(v);
    PascalOfCleanText(v, preserve);
    RoundTripFromFirst(c, r);
  }

  /**
   * Converting a word of letters and digits to underscore_delimited and back
   * gives the word with its first letter raised: for PascalCase input the
   * original text.
   */
  lemma PascalOfUnderscoreDelimited(x: string, preserve: bool)
    requires x != [] && AllAlnum(x) && IsLetter(x[0])
    ensures x == [] || Trim(x) != []
    ensures PascalCase(UnderscoreDelimited(x), preserve) == [ToUpper(x[0])] + x[1..]
  {
    UnderscoreDelimitedOfWord(x);
    PascalOfDelimitedForm(x[0], x[1..], preserve);
  }

  // ---------------------------------------------------------------------------
  // ConvertUnderscoreDelimitedToPascalCase, public overload

  /** Converts underscore_delimited text to PascalCase, replacing edge underscores by Underscorechar. */
  method ConvertUnderscoreDelimitedToPascalCase(oldText: string) returns (r: string)
    ensures r == PascalCase(oldText, false)
  {
    r := ConvertUnderscoreDelimitedToPascalCaseWith(oldText, false);
  }

  // ---------------------------------------------------------------------------
  // ConvertUnderscoreDelimitedToCamelCase

  /** The text with its first character lowered. */
  function LowerFirst(p: string): (r: string)
    requires p != []
    ensures |r| == |p| && r[1..] == p[1..] && !IsUpper(r[0])
    ensures Lower(r[..1]) == Lower(p[..1])
  {
    [ToLower(p[0])] + p[1..]
  }

  /** The source's `Substring(0, 1).ToLower()` plus the rest computes `LowerFirst`. */
  lemma LowerFirstBySubstrings(p: string)
    requires p != []
    ensures Lower(p[..1]) + (if |p| == 1 then [] else p[1..]) == LowerFirst(p)
  {
    assert Lower(p[..1]) == [ToLower(p[0])];
  }

  /**
   * Pascal case with its first character lowered. The source takes the first
   * character of the Pascal text unconditionally, so an input that gives an
   * empty Pascal text (see `PascalEmpty`) fails there: hence the precondition.
   */
  function CamelCase(s: string, preserve: bool): (r: string)
    requires s == [] || PascalCase(s, preserve) != []
    ensures s != [] ==> |r| == |PascalCase(s, preserve)| && r[1..] == PascalCase(s, preserve)[1..]
    ensures r == [] || !IsUpper(r[0])
  {
    if s == [] then [] else LowerFirst(PascalCase(s, preserve))
  }

  method ConvertUnderscoreDelimitedToCamelCaseWith(oldText: string, preserveLeadingAndTrailingUnderscores: bool)
    returns (r: string)
    requires oldText == [] || PascalCase(oldText, preserveLeadingAndTrailingUnderscores) != []
    ensures r == CamelCase(oldText, preserveLeadingAndTrailingUnderscores)
  {
    if oldText == [] {
      return [];
    }
    var pascalCase := ConvertUnderscoreDelimitedToPascalCaseWith(oldText, preserveLeadingAndTrailingUnderscores);
    LowerFirstBySubstrings(pascalCase);
    r := Lower(pascalCase[..1]) + (if |pascalCase| == 1 then [] else pascalCase[1..]);
  }

  /** Converts underscore_delimited text to camelCase, replacing edge underscores by Underscorechar. */
  method ConvertUnderscoreDelimitedToCamelCase(oldText: string) returns (r: string)
    requires oldText == [] || PascalCase(oldText, false) != []
    ensures r == CamelCase(oldText, false)
  {
    r := ConvertUnderscoreDelimitedToCamelCaseWith(oldText, false);
  }

  /** Raising the first letter of camel case gives back Pascal case. */
  lemma CamelRaisedIsPascal(s: string, preserve: bool)
    requires s != [] && PascalCase(s, preserve) != []
    ensures var r := CamelCase(s, preserve); [ToUpper(r[0])] + r[1..] == PascalCase(s, preserve)
  {
    PascalCaseStart(s, preserve);
    RaiseLowerFirst(PascalCase(s, preserve));
  }

  /** Raising the first character again undoes `LowerFirst` on text not starting in lower case. */
  lemma RaiseLowerFirst(p: string)
    requires p != [] && !IsLower(p[0])
    ensures var r := LowerFirst(p); [ToUpper(r[0])] + r[1..] == p
  {
    CaseRoundTrip(p[0]);
    assert [p[0]] + p[1..] == p;
  }

  /**
   * Converting a camelCase word of letters and digits to underscore_delimited
   * and back gives the word again.
   */
  lemma CamelOfUnderscoreDelimited(x: string, preserve: bool)
    requires x != [] && AllAlnum(x) && IsLower(x[0])
    ensures x == [] || Trim(x) != []
    ensures UnderscoreDelimited(x) == [] || PascalCase(UnderscoreDelimited(x), preserve) != []
    ensures CamelCase(UnderscoreDelimited(x), preserve) == x
  {
    PascalOfUnderscoreDelimited(x, preserve);
    LowerFirstOfRaised(x);
  }

  /** Lowering the first character of a word whose first letter was raised gives the word back. */
  lemma LowerFirstOfRaised(x: string)
    requires x != [] && IsLower(x[0])
    ensures LowerFirst([ToUpper(x[0])] + x[1..]) == x
  {
    CaseRoundTrip(x[0]);
    assert [x[0]] + x[1..] == x;
  }

  // ---------------------------------------------------------------------------
  // ConvertToCapitalized, continued

  /** Capitalising capitalised text changes nothing. */
  lemma CapitalizedIdempotent(value: string)
    requires value == [] || Trim(value) != []
    ensures var r := ConvertToCapitalized(value); r == [] || Trim(r) != []
    ensures ConvertToCapitalized(ConvertToCapitalized(value)) == ConvertToCapitalized(value)
  {
    if value != [] {
      var t := Trim(value);
      var r := ConvertToCapitalized(value);
      assert r == [ToUpper(t[0])] + Lower(t[1..]);
      CaseRoundTrip(t[0]);
      CaseRoundTrip(t[|t| - 1]);
      assert !IsWhiteSpace(r[0]) && !IsWhiteSpace(r[|r| - 1]);
      TrimOfTrimmed(r);
      LowerIdempotent(t[1..]);
      assert r[1..] == Lower(t[1..]);
    }
  }

  // ---------------------------------------------------------------------------
  // ConvertUnderscoreDelimitedToLabel

  /** `Replace("_", " ")`: every underscore becomes a space. */
  function SpaceForUnderscore(s: string): (r: string)
    ensures |r| == |s|
    ensures forall i :: 0 <= i < |s| ==> r[i] == (if s[i] == Underscore then ' ' else s[i])
  {
    seq(|s|, i requires 0 <= i < |s| => if s[i] == Underscore then ' ' else s[i])
  }

  /** The text lowered, underscores turned to spaces, each word title-cased. */
  function ConvertUnderscoreDelimitedToLabel(columnName: string): string {
    TitleCase(SpaceForUnderscore(Lower(columnName)))
  }

  /**
   * A label differs from the lowered text only in the case of letters and in
   * spaces for underscores; it has no underscore left.
   */
  lemma LabelLetters(columnName: string)
    ensures Lower(ConvertUnderscoreDelimitedToLabel(columnName)) == SpaceForUnderscore(Lower(columnName))
    ensures Underscore !in ConvertUnderscoreDelimitedToLabel(columnName)
  {
    var v := SpaceForUnderscore(Lower(columnName));
    var r := ConvertUnderscoreDelimitedToLabel(columnName);
    TitleFromOnlyRaises(v, false);
    assert NoUpper(v);
    LowerOfLowercase(v);
  }

  /** After a separator the title-casing scan is outside any word. */
  lemma StateAfterSeparator(x: string, c: char, inWord: bool)
    requires IsWordSeparator(c)
    ensures !StateAfter(x + [c], inWord)
  {
    StateAfterAppend(x, [c], inWord);
  }

  lemma {:induction false} StateAfterAppend(x: string, y: string, inWord: bool)
    ensures StateAfter(x + y, inWord) == StateAfter(y, StateAfter(x, inWord))
  {
    if x == [] {
      assert x + y == y;
    } else {
      assert (x + y)[1..] == x[1..] + y;
      StateAfterAppend(x[1..], y, NextState(inWord, x[0]));
    }
  }

  /** Each underscore-separated part of a column name is labelled on its own. */
  lemma LabelJoin(a: string, b: string)
    ensures ConvertUnderscoreDelimitedToLabel(a + [Underscore] + b)
      == ConvertUnderscoreDelimitedToLabel(a) + [' '] + ConvertUnderscoreDelimitedToLabel(b)
  {
    var x := SpaceForUnderscore(Lower(a));
    var y := SpaceForUnderscore(Lower(b));
    LowerAppend(a + [Underscore], b);
    LowerAppend(a, [Underscore]);
    assert SpaceForUnderscore(Lower(a + [Underscore] + b)) == x + [' '] + y;
    TitleFromAppend(x + [' '], y, false);
    TitleFromAppend(x, [' '], false);
    StateAfterSeparator(x, ' ', false);
  }

  /** A single word of letters and digits starting with a letter is labelled as it is capitalised. */
  lemma LabelOfWord(w: string)
    requires w != [] && AllAlnum(w) && IsLetter(w[0])
    ensures w == [] || Trim(w) != []
    ensures ConvertUnderscoreDelimitedToLabel(w) == ConvertToCapitalized(w)
  {
    CapitalizedOfWord(w);
    assert SpaceForUnderscore(Lower(w)) == Lower(w);
  }

  // ---------------------------------------------------------------------------
  // Single words

  /** Title-casing the lowered word is capitalising it. */
  lemma CapitalizedOfWord(x: string)
    requires x != [] && AllAlnum(x) && IsLetter(x[0])
    ensures Trim(x) == x
    ensures TitleCase(Lower(x)) == ConvertToCapitalized(x)
  {
    var v := Lower(x);
    assert NoWhiteSpace(x);
    TrimOfNoWhiteSpace(x);
    CaseRoundTrip(x[0]);
    TitleOfWord(v);
    assert v[1..] == Lower(x[1..]);
  }

  /** On a single word the Pascal body is the word capitalised. */
  lemma PascalBodyOfWord(x: string)
    requires x != [] && AllAlnum(x) && IsLetter(x[0])
    ensures x == [] || Trim(x) != []
    ensures PascalBody(x) == ConvertToCapitalized(x)
  {
    var v := Lower(x);
    CapitalizedOfWord(x);
    assert SingleSeparators(x);
    CollapseIdentity(x);
    assert NoWhiteSpace(v);
    TrimOfNoWhiteSpace(v);
    forall i | 0 <= i < |v|
      ensures v[i] != Underscore
    {
      assert IsAlnum(x[i]);
      CaseRoundTrip(x[i]);
    }
    SplitNoDelim(v, Underscore);
    ConcatTitledCons(v, []);
  }

  /**
   * Pascal case of a single word of letters and digits keeps only its first
   * letter upper case: PascalCase text with several words is not left as it is.
   */
  lemma PascalOfWord(x: string, preserve: bool)
    requires x != [] && AllAlnum(x) && IsLetter(x[0])
    ensures x == [] || Trim(x) != []
    ensures PascalCase(x, preserve) == ConvertToCapitalized(x)
  {
    PascalBodyOfWord(x);
    assert IsAlnum(x[0]) && IsAlnum(x[|x| - 1]);
    PascalCaseIsBody(x, preserve);
  }

  /** Letters and digits followed by other text are kept as they are by the regular expression. */
  lemma {:induction false} CollapseAfterAlnum(x: string, y: string)
    requires AllAlnum(x)
    ensures CollapseNonAlnum(x + y) == x + CollapseNonAlnum(y)
  {
    if x != [] {
      assert (x + y)[0] == x[0] && (x + y)[1..] == x[1..] + y;
      CollapseAfterAlnum(x[1..], y);
      assert CollapseNonAlnum(x + y) == [x[0]] + (x[1..] + CollapseNonAlnum(y));
      assert [x[0]] + x[1..] == x;
    } else {
      assert x + y == y;
    }
  }

  /** The regular expression leaves a word between single underscores as it is. */
  lemma CollapseEdged(x: string)
    requires x != [] && AllAlnum(x)
    ensures CollapseNonAlnum([Underscore] + x + [Underscore]) == [Underscore] + x + [Underscore]
  {
    var s := [Underscore] + x + [Underscore];
    var t := x + [Underscore];
    assert s[1..] == t;
    assert DropNonAlnum(t) == t;
    CollapseAfterAlnum(x, [Underscore]);
    assert CollapseNonAlnum([Underscore]) == [Underscore];
    assert CollapseNonAlnum(s) == [Underscore] + CollapseNonAlnum(t);
  }

  lemma LowerEdged(x: string)
    ensures Lower([Underscore] + x + [Underscore]) == [Underscore] + Lower(x) + [Underscore]
  {
    LowerAppend([Underscore] + x, [Underscore]);
    LowerAppend([Underscore], x);
  }

  /** A word between underscores is cleaned to the lowered word between underscores. */
  lemma CleanEdged(x: string)
    requires x != [] && AllAlnum(x)
    ensures Trim(Lower(CollapseNonAlnum(Trim([Underscore] + x + [Underscore]))))
      == [Underscore] + Lower(x) + [Underscore]
  {
    var s := [Underscore] + x + [Underscore];
    var w := [Underscore] + Lower(x) + [Underscore];
    TrimOfTrimmed(s);
    CollapseEdged(x);
    LowerEdged(x);
    TrimOfTrimmed(w);
  }

  /** A word between two separators splits into the word between two empty pieces. */
  lemma SplitEdged(v: string)
    requires forall i :: 0 <= i < |v| ==> v[i] != Underscore
    ensures ConcatTitled(Split([Underscore] + v + [Underscore], Underscore)) == TitleCase(v)
  {
    var w := [Underscore] + v + [Underscore];
    var inner := v + [Underscore] + [];
    assert w == [Underscore] + inner;
    SplitConsDelim(inner, Underscore);
    SplitAfter(v, [], Underscore);
    assert Split(w, Underscore) == [[]] + ([v] + [[]]);
    ConcatTitledCons([], [v] + [[]]);
    ConcatTitledCons(v, [[]]);
    ConcatTitledCons([], []);
  }

  lemma SplitConsDelim(q: string, d: char)
    ensures Split([d] + q, d) == [[]] + Split(q, d)
  {
    assert ([d] + q)[1..] == q;
  }

  lemma PascalBodyEdged(x: string)
    requires x != [] && AllAlnum(x) && IsLetter(x[0])
    ensures x == [] || Trim(x) != []
    ensures PascalBody([Underscore] + x + [Underscore]) == ConvertToCapitalized(x)
  {
    var v := Lower(x);
    CapitalizedOfWord(x);
    CleanEdged(x);
    assert forall i :: 0 <= i < |v| ==> v[i] != Underscore by {
      forall i | 0 <= i < |v| ensures v[i] != Underscore { CaseRoundTrip(x[i]); }
    }
    SplitEdged(v);
  }

  /**
   * A word between two underscores: without `preserve` each edge becomes the
   * word Underscorechar, with it the underscores are dropped.
   */
  lemma PascalEdges(x: string, preserve: bool)
    requires x != [] && AllAlnum(x) && IsLetter(x[0])
    ensures x == [] || Trim(x) != []
    ensures PascalCase([Underscore] + x + [Underscore], preserve)
      == LeadingWord([Underscore], preserve) + (ConvertToCapitalized(x) + TrailingWord([Underscore], preserve))
  {
    var s := [Underscore] + x + [Underscore];
    PascalBodyEdged(x);
    PascalCaseParts(s, preserve);
    EdgeWordsOfEdged(x, preserve);
  }

  lemma EdgeWordsOfEdged(x: string, preserve: bool)
    ensures var s := [Underscore] + x + [Underscore];
      LeadingWord(s, preserve) == LeadingWord([Underscore], preserve)
      && TrailingWord(s, preserve) == TrailingWord([Underscore], preserve)
  {
    var s := [Underscore] + x + [Underscore];
    assert s[0] == Underscore && s[|s| - 1] == Underscore;
  }

  /**
   * PascalCase text with a second capital, such as `FooBar`, is not a fixed
   * point: its inner capitals are lowered (`Foobar`).
   */
  lemma PascalNotIdempotent(x: string, i: nat, preserve: bool)
    requires x != [] && AllAlnum(x) && IsLetter(x[0]) && 0 < i < |x| && IsUpper(x[i])
    ensures PascalCase(x, preserve) != x
    ensures |PascalCase(x, preserve)| == |x| && !IsUpper(PascalCase(x, preserve)[i])
  {
    PascalOfWord(x, preserve);
    CapitalizedLowersInner(x, i);
  }

  /** Capitalising a word lowers every upper-case letter after the first. */
  lemma CapitalizedLowersInner(x: string, i: nat)
    requires x != [] && AllAlnum(x) && IsLetter(x[0]) && 0 < i < |x| && IsUpper(x[i])
    ensures Trim(x) != []
    ensures var r := ConvertToCapitalized(x); r != x && |r| == |x| && !IsUpper(r[i])
  {
    CapitalizedOfWord(x);
    var r := ConvertToCapitalized(x);
    assert r[1..][i - 1] == r[i];
  }

  // ---------------------------------------------------------------------------
  // ConvertUnderscoreDelimitedToCamelCasePrefixedWithUnderscore

  /** Camel case holds only letters and digits, like Pascal case. */
  lemma CamelCaseAlnum(s: string, preserve: bool)
    requires s == [] || PascalCase(s, preserve) != []
    ensures AllAlnum(CamelCase(s, preserve))
  {
    if s != [] {
      PascalCaseAlnum(s, preserve);
      LowerFirstAlnum(PascalCase(s, preserve));
    }
  }

  lemma LowerFirstAlnum(p: string)
    requires p != [] && AllAlnum(p)
    ensures AllAlnum(LowerFirst(p))
  {
    CaseRoundTrip(p[0]);
    AllAlnumAppend([ToLower(p[0])], p[1..]);
  }

  /** Camel case with `_` in front: the field-name form. */
  function PrefixedCamelCase(s: string, preserve: bool): (r: string)
    requires s == [] || PascalCase(s, preserve) != []
    ensures r != [] && r[0] == Underscore && r[1..] == CamelCase(s, preserve)
  {
    [Underscore] + CamelCase(s, preserve)
  }

  /** The prefixed form has exactly one underscore, the first character. */
  lemma PrefixedCamelCaseShape(s: string, preserve: bool)
    requires s == [] || PascalCase(s, preserve) != []
    ensures var r := PrefixedCamelCase(s, preserve); r[0] == Underscore && AllAlnum(r[1..])
  {
    CamelCaseAlnum(s, preserve);
  }

  /** The overload with a flag: `_` followed by camel case. */
  method ConvertUnderscoreDelimitedToCamelCasePrefixedWithUnderscoreWith(oldText: string, preserveTrailingUnderscore: bool)
    returns (r: string)
    requires oldText == [] || PascalCase(oldText, preserveTrailingUnderscore) != []
    ensures r == PrefixedCamelCase(oldText, preserveTrailingUnderscore)
  {
    var camel := ConvertUnderscoreDelimitedToCamelCaseWith(oldText, preserveTrailingUnderscore);
    r := [Underscore] + camel;
  }

  /** The public overload as written: it returns camel case and adds no `_`. */
  method ConvertUnderscoreDelimitedToCamelCasePrefixedWithUnderscore(oldText: string) returns (r: string)
    requires oldText == [] || PascalCase(oldText, false) != []
    ensures r == CamelCase(oldText, false)
  {
    r := ConvertUnderscoreDelimitedToCamelCaseWith(oldText, false);
  }

  /**
   * The public overload never gives what its name promises: its result never
   * starts with `_`, while the prefixed form always does.
   */
  lemma PublicPrefixedLacksUnderscore(s: string)
    requires s == [] || PascalCase(s, false) != []
    ensures CamelCase(s, false) != PrefixedCamelCase(s, false)
    ensures CamelCase(s, false) == [] || CamelCase(s, false)[0] != Underscore
  {
    CamelCaseAlnum(s, false);
    AlnumNotPrefixed(CamelCase(s, false), PrefixedCamelCase(s, false));
  }

  lemma AlnumNotPrefixed(c: string, p: string)
    requires AllAlnum(c) && p != [] && p[0] == Underscore
    ensures c != p && (c == [] || c[0] != Underscore)
  {
    if c != [] {
      assert IsAlnum(c[0]);
    }
  }

  /** The public overload as its name and documentation intend: `_` then camel case. */
  method ConvertUnderscoreDelimitedToCamelCasePrefixedWithUnderscoreCorrected(oldText: string) returns (r: string)
    requires oldText == [] || PascalCase(oldText, false) != []
    ensures r == PrefixedCamelCase(oldText, false)
  {
    r := ConvertUnderscoreDelimitedToCamelCasePrefixedWithUnderscoreWith(oldText, false);
  }
}
