// CustomBooleanEditor: text to Boolean and back, with optional custom words.
module BooleanEditor {
  import opened Wrappers
  import opened Values
  import StringUtils

  /** Lower-case form of a character, for ASCII letters. */
  function ToLower(c: char): char
  {
    if 'A' <= c <= 'Z' then (c as int - 'A' as int + 'a' as int) as char else c
  }

  /** `a.equalsIgnoreCase(b)` on ASCII case. */
  predicate EqualsIgnoreCase(a: string, b: string)
  {
    |a| == |b| && forall i :: 0 <= i < |a| ==> ToLower(a[i]) == ToLower(b[i])
  }

  /** The built-in words for TRUE: "true", "on", "yes" in any case, and exactly "1". */
  predicate IsDefaultTrue(input: string)
  {
    EqualsIgnoreCase("true", input) || EqualsIgnoreCase("on", input) || EqualsIgnoreCase("yes", input) || input == "1"
  }

  /** The built-in words for FALSE: "false", "off", "no" in any case, and exactly "0". */
  predicate IsDefaultFalse(input: string)
  {
    EqualsIgnoreCase("false", input) || EqualsIgnoreCase("off", input) || EqualsIgnoreCase("no", input) || input == "0"
  }

  /** `customWord.equalsIgnoreCase(input)` for a word that may be unset and an input that may be null. */
  predicate MatchesCustom(word: Option<string>, input: Option<string>)
  {
    word.Some? && input.Some? && EqualsIgnoreCase(word.value, input.value)
  }

  /** The input is a built-in word for `side`, and that side has no custom word. */
  predicate BuiltInWord(word: Option<string>, input: Option<string>, side: bool)
  {
    word.None? && input.Some? && (if side then IsDefaultTrue(input.value) else IsDefaultFalse(input.value))
  }

  /** The text after `trim()`, null staying null. */
  function Trimmed(text: Option<string>): Option<string>
  {
    if text.None? then None else Some(StringUtils.Trim(text.value))
  }

  /**
   * The value `setAsText` stores: null for blank input when empty is allowed; TRUE or
   * FALSE when the trimmed input matches a custom word, or a built-in word of a side
   * that has no custom word; an IllegalArgumentException otherwise.
   */
  function ParseBoolean(trueString: Option<string>, falseString: Option<string>, allowEmpty: bool, text: Option<string>): (r: Result<Value>)
    ensures r.Err? ==> r.error == IllegalArgumentException
    ensures r == Ok(Null) <==> allowEmpty && !StringUtils.HasText(Trimmed(text))
    ensures r == Ok(Bool(true)) ==> (Trimmed(text).Some? &&
      (MatchesCustom(trueString, Trimmed(text)) || (trueString.None? && IsDefaultTrue(Trimmed(text).value))))
    ensures r == Ok(Bool(false)) ==> (Trimmed(text).Some? &&
      (MatchesCustom(falseString, Trimmed(text)) || (falseString.None? && IsDefaultFalse(Trimmed(text).value))))
    ensures r.Ok? ==> r.value.Null? || r.value.Bool?
    ensures text.None? && !allowEmpty ==> r == Err(IllegalArgumentException)
    // Outside the blank case, the words decide in this order: the custom true word, the
    // custom false word, a built-in true word, a built-in false word; nothing else parses.
    ensures !(allowEmpty && !StringUtils.HasText(Trimmed(text))) ==>
      var t := Trimmed(text);
      (MatchesCustom(trueString, t) ==> r == Ok(Bool(true)))
      && ((!MatchesCustom(trueString, t) && MatchesCustom(falseString, t)) ==> r == Ok(Bool(false)))
      && ((!MatchesCustom(trueString, t) && !MatchesCustom(falseString, t) && BuiltInWord(trueString, t, true))
          ==> r == Ok(Bool(true)))
      && ((!MatchesCustom(trueString, t) && !MatchesCustom(falseString, t) && !BuiltInWord(trueString, t, true)
           && BuiltInWord(falseString, t, false)) ==> r == Ok(Bool(false)))
      && ((!MatchesCustom(trueString, t) && !MatchesCustom(falseString, t) && !BuiltInWord(trueString, t, true)
           && !BuiltInWord(falseString, t, false)) ==> r == Err(IllegalArgumentException))
  {
    var input := Trimmed(text);
    if allowEmpty && !StringUtils.HasText(input) then Ok(Null)
    else if MatchesCustom(trueString, input) then Ok(Bool(true))
    else if MatchesCustom(falseString, input) then Ok(Bool(false))
    else if BuiltInWord(trueString, input, true) then Ok(Bool(true))
    else if BuiltInWord(falseString, input, false) then Ok(Bool(false))
    else Err(IllegalArgumentException)
  }

  /** `getAsText`: the word for TRUE or FALSE, and "" for anything else. */
  function AsText(trueString: Option<string>, falseString: Option<string>, value: Value): string
  {
    if value == Bool(true) then (if trueString.Some? then trueString.value else "true")
    else if value == Bool(false) then (if falseString.Some? then falseString.value else "false")
    else ""
  }

  /** A custom word that can stand as text: already trimmed and not blank. */
  predicate UsableWord(word: Option<string>)
  {
    word.None? || (StringUtils.IsTrimmed(word.value) && StringUtils.HasText(word))
  }

  lemma EqualsIgnoreCaseSymmetric(a: string, b: string)
    ensures EqualsIgnoreCase(a, b) <==> EqualsIgnoreCase(b, a)
  {
  }

  lemma EqualsIgnoreCaseReflexive(a: string)
    ensures EqualsIgnoreCase(a, a)
  {
  }

  /**
   * Writing a Boolean as text and reading that text back gives the same Boolean,
   * provided the custom words are usable and the two texts do not collide.
   */
  lemma TextRoundTrip(trueString: Option<string>, falseString: Option<string>, allowEmpty: bool, b: bool)
    requires UsableWord(trueString) && UsableWord(falseString)
    requires !EqualsIgnoreCase(AsText(trueString, falseString, Bool(true)), AsText(trueString, falseString, Bool(false)))
    ensures ParseBoolean(trueString, falseString, allowEmpty, Some(AsText(trueString, falseString, Bool(b)))) == Ok(Bool(b))
  {
    var t := AsText(trueString, falseString, Bool(b));
    if trueString.Some? { StringUtils.TrimOfTrimmed(trueString.value); }
    if falseString.Some? { StringUtils.TrimOfTrimmed(falseString.value); }
    assert StringUtils.Trim(t) == t by {
      if trueString.None? { StringUtils.TrimOfTrimmed("true"); }
      if falseString.None? { StringUtils.TrimOfTrimmed("false"); }
    }
    assert StringUtils.HasText(Some(t)) by {
      if b && trueString.None? { assert !StringUtils.IsWhitespace(t[0]); }
      if !b && falseString.None? { assert !StringUtils.IsWhitespace(t[0]); }
    }
    EqualsIgnoreCaseReflexive(t);
    var tt := AsText(trueString, falseString, Bool(true));
    var ft := AsText(trueString, falseString, Bool(false));
    EqualsIgnoreCaseSymmetric(tt, ft);
    if !b && falseString.None? {
      assert !IsDefaultTrue("false") by {
        assert ToLower("false"[0]) != ToLower("true"[0]);
        assert ToLower("false"[0]) != ToLower("on"[0]);
        assert ToLower("false"[0]) != ToLower("yes"[0]);
      }
    }
  }

  /**
   * With no custom words, every built-in TRUE word ("true", "on", "yes" in any letter case,
   * or "1") parses to TRUE.
   */
  lemma BuiltInTrueWordParses(w: string, allowEmpty: bool)
    requires IsDefaultTrue(w)
    ensures ParseBoolean(None, None, allowEmpty, Some(w)) == Ok(Bool(true))
  {
    BuiltInWordIsVisible(w);
    VisibleIsPlain(w);
  }

  /**
   * With no custom words, every built-in FALSE word ("false", "off", "no" in any letter
   * case, or "0") parses to FALSE: none of them is also a TRUE word.
   */
  lemma BuiltInFalseWordParses(w: string, allowEmpty: bool)
    requires IsDefaultFalse(w)
    ensures ParseBoolean(None, None, allowEmpty, Some(w)) == Ok(Bool(false))
  {
    BuiltInWordIsVisible(w);
    VisibleIsPlain(w);
    assert !IsDefaultTrue(w) by {
      if |w| == 3 {
        assert ToLower(w[0]) == 'o' && ToLower("yes"[0]) == 'y';
      } else if |w| == 2 {
        assert ToLower(w[0]) == 'n' && ToLower("on"[0]) == 'o';
      }
    }
  }

  /** The text is trimmed before the words are compared. */
  lemma BlanksAroundWordIgnored(allowEmpty: bool)
    ensures ParseBoolean(None, None, allowEmpty, Some(" YeS ")) == Ok(Bool(true))
  {
    assert StringUtils.Trim(" YeS ") == "YeS" by {
      assert " YeS "[1..] == "YeS ";
      assert "YeS "[..3] == "YeS";
    }
    assert EqualsIgnoreCase("yes", "YeS");
    BuiltInWordIsVisible("YeS");
    VisibleIsPlain("YeS");
  }

  /** A built-in word is made of visible characters. */
  lemma BuiltInWordIsVisible(w: string)
    requires IsDefaultTrue(w) || IsDefaultFalse(w)
    ensures Visible(w)
  {
    assert Visible(w) by {
      if EqualsIgnoreCase("true", w) { CaseVariantIsVisible("true", w); }
      else if EqualsIgnoreCase("on", w) { CaseVariantIsVisible("on", w); }
      else if EqualsIgnoreCase("yes", w) { CaseVariantIsVisible("yes", w); }
      else if EqualsIgnoreCase("false", w) { CaseVariantIsVisible("false", w); }
      else if EqualsIgnoreCase("off", w) { CaseVariantIsVisible("off", w); }
      else if EqualsIgnoreCase("no", w) { CaseVariantIsVisible("no", w); }
    }
  }

  /** Every character of `w` is visible, and there is one. */
  predicate Visible(w: string)
  {
    w != [] && forall i :: 0 <= i < |w| ==> w[i] > ' ' && !StringUtils.IsWhitespace(w[i])
  }

  /** A visible word is already trimmed and has text. */
  lemma VisibleIsPlain(w: string)
    requires Visible(w)
    ensures StringUtils.IsTrimmed(w) && StringUtils.Trim(w) == w && !StringUtils.IsWhitespace(w[0])
    ensures StringUtils.HasText(Some(w))
  {
    StringUtils.TrimOfTrimmed(w);
  }

  /** Any letter-case variant of a non-empty lower-case word is made of visible characters. */
  lemma CaseVariantIsVisible(word: string, w: string)
    requires word != [] && forall i :: 0 <= i < |word| ==> 'a' <= word[i] <= 'z'
    requires EqualsIgnoreCase(word, w)
    ensures Visible(w)
  {
    forall i | 0 <= i < |w| ensures w[i] > ' ' && !StringUtils.IsWhitespace(w[i]) {
      assert ToLower(word[i]) == word[i];
    }
  }

  /** A `CustomBooleanEditor` and the value it holds. */
  class CustomBooleanEditor {
    const trueString: Option<string>
    const falseString: Option<string>
    const allowEmpty: bool
    var value: Value

    constructor (trueString: Option<string>, falseString: Option<string>, allowEmpty: bool)
      ensures this.trueString == trueString && this.falseString == falseString
      ensures this.allowEmpty == allowEmpty && value == Null
    {
      this.trueString := trueString;
      this.falseString := falseString;
      this.allowEmpty := allowEmpty;
      value := Null;
    }

    /** `setAsText`: stores the parsed value, or throws and keeps the old one. */
    method SetAsText(text: Option<string>) returns (r: Outcome)
      modifies this
      ensures var p := ParseBoolean(trueString, falseString, allowEmpty, text);
        if p.Ok? then r == Pass && value == p.value else r == Fail(p.error) && value == old(value)
    {
      var p := ParseBoolean(trueString, falseString, allowEmpty, text);
      if p.Ok? {
        value := p.value;
        r := Pass;
      } else {
        r := Fail(p.error);
      }
    }

    /** `getAsText`. */
    method GetAsText() returns (s: string)
      ensures s == AsText(trueString, falseString, value)
    {
      if value == Bool(true) {
        s := if trueString.Some? then trueString.value else "true";
      } else if value == Bool(false) {
        s := if falseString.Some? then falseString.value else "false";
      } else {
        s := "";
      }
    }
  }
}
