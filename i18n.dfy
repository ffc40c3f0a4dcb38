/**
 * `getTranslation` of `client/src/lib/i18n.ts`: the key is split on dots and each segment is
 * looked up as a JavaScript property, starting from the language's table; anything that does not
 * end on a string falls back to the key itself; `{name}` placeholders are then filled in with
 * `String.prototype.replace`, one parameter after the other.
 */
module I18n {
  import opened Wrappers
  import opened Strings
  import Translations

  /** The `Language` union: 'en', 'ar' and 'hi'. */
  datatype Language = En | Ar | Hi

  /** The string a language's table holds for a key. */
  function TableText(language: Language, key: Translations.TranslationKey): string {
    match language
    case En => Translations.EnglishText(key)
    case Ar => Translations.ArabicText(key)
    case Hi => Translations.HindiText(key)
  }

  // ---------------------------------------------------------------- property access

  /** The values a lookup can reach: a table, a string, a string's length, or `undefined`. */
  datatype JsValue = Table(language: Language) | Str(s: string) | Num(n: int) | Undefined

  /** A canonical array index: decimal digits without a leading zero. */
  predicate IsArrayIndex(name: string) {
    |name| >= 1 && IsDigits(name) && (name[0] != '0' || name == "0")
  }

  /**
   * `v[name]`: a table yields its string for a key it defines; a string yields its `length`, or
   * the one-character string at an index below the length; everything else is `undefined`.
   */
  function Property(v: JsValue, name: string): (r: JsValue)
    ensures v.Table? ==> (r.Undefined? <==> Translations.KeyOf(name).None?)
    ensures v.Str? ==>
      (r.Undefined? <==> name != "length" && !(IsArrayIndex(name) && ParseDigits(name) < |v.s|))
    ensures v.Num? || v.Undefined? ==> r.Undefined?
  {
    match v
    case Table(language) =>
      (match Translations.KeyOf(name)
       case Some(key) => Str(TableText(language, key))
       case None => Undefined)
    case Str(s) =>
      if name == "length" then Num(|s|)
      else if IsArrayIndex(name) && ParseDigits(name) < |s| then Str([s[ParseDigits(name)]])
      else Undefined
    case Num(_) => Undefined
    case Undefined => Undefined
  }

  /** Following the segments from `v`; `undefined` as soon as one of them is missing. */
  function Resolve(v: JsValue, names: seq<string>): (r: JsValue)
    ensures names == [] ==> r == v
    ensures r.Table? ==> names == [] && r == v
    decreases |names|
  {
    if names == [] then v
    else
      var next := Property(v, names[0]);
      if next.Undefined? then Undefined else Resolve(next, names[1..])
  }

  // ---------------------------------------------------------------- replace

  /**
   * The replacement text `String.prototype.replace` inserts for a string pattern that matched
   * `matched` at `position` of `str`: `$$` is a dollar sign, `$&` the match, `` $` `` the text
   * before it, `$'` the text after it; any other `$` is kept as it is.
   */
  function Substitution(replacement: string, str: string, position: nat, matched: string): string
    requires position + |matched| <= |str|
    decreases |replacement|
  {
    if replacement == [] then ""
    else if replacement[0] == '$' && |replacement| >= 2 then
      var c := replacement[1];
      var rest := Substitution(replacement[2..], str, position, matched);
      if c == '$' then "$" + rest
      else if c == '&' then matched + rest
      else if c == '`' then str[..position] + rest
      else if c == '\'' then str[position + |matched|..] + rest
      else "$" + Substitution(replacement[1..], str, position, matched)
    else [replacement[0]] + Substitution(replacement[1..], str, position, matched)
  }

  /** A replacement without a dollar sign is inserted as it is. */
  lemma {:induction false} PlainSubstitution(replacement: string, str: string, position: nat, matched: string)
    requires position + |matched| <= |str|
    requires '$' !in replacement
    ensures Substitution(replacement, str, position, matched) == replacement
    decreases |replacement|
  {
    if replacement != [] {
      assert replacement[1..] == replacement[|[replacement[0]]|..];
      PlainSubstitution(replacement[1..], str, position, matched);
      assert replacement == [replacement[0]] + replacement[1..];
    }
  }

  /**
   * `str.replace(pattern, replacement)` with a string pattern: only the first occurrence of
   * `pattern` is replaced; without one the string is unchanged.
   */
  function ReplaceFirst(str: string, pattern: string, replacement: string): (r: string)
    ensures IndexOf(str, pattern) < 0 ==> r == str
    ensures var i := IndexOf(str, pattern);
      i >= 0 ==>
        (|r| >= i + |str| - (i + |pattern|) &&
         r[..i] == str[..i] && r[|r| - (|str| - (i + |pattern|))..] == str[i + |pattern|..])
    ensures var i := IndexOf(str, pattern);
      i >= 0 && '$' !in replacement ==> r == str[..i] + replacement + str[i + |pattern|..]
  {
    var i := IndexOf(str, pattern);
    if i < 0 then str
    else
      var inserted := Substitution(replacement, str, i, pattern);
      assert '$' !in replacement ==> inserted == replacement by {
        if '$' !in replacement { PlainSubstitution(replacement, str, i, pattern); }
      }
      var r := str[..i] + inserted + str[i + |pattern|..];
      assert r[..i] == str[..i];
      assert r[|r| - (|str| - (i + |pattern|))..] == str[i + |pattern|..];
      r
  }

  // ---------------------------------------------------------------- parameters

  /** A parameter value: `string | number` (integers only). */
  datatype ParamValue = Text(text: string) | Number(n: int)

  /** `String(value)`. */
  function ValueString(value: ParamValue): string {
    match value
    case Text(text) => text
    case Number(n) => DecimalString(n)
  }

  /** `{name}`. */
  function Placeholder(name: string): string {
    "{" + name + "}"
  }

  /**
   * The `reduce` over `Object.entries(params)`: each parameter in turn replaces the first
   * `{name}` of the text so far.
   */
  function ApplyParams(text: string, params: seq<(string, ParamValue)>): (r: string)
    ensures '{' !in text ==> r == text
    decreases |params|
  {
    if params == [] then text
    else
      var (name, value) := params[0];
      var replaced := ReplaceFirst(text, Placeholder(name), ValueString(value));
      assert '{' !in text ==> replaced == text by {
        if '{' !in text {
          assert Placeholder(name)[0] == '{';
          MissingCharExcludes(text, Placeholder(name), '{');
        }
      }
      ApplyParams(replaced, params[1..])
  }

  /** Parameters whose placeholders do not occur leave the text as it is. */
  lemma {:induction false} AbsentPlaceholdersChangeNothing(text: string, params: seq<(string, ParamValue)>)
    requires forall i :: 0 <= i < |params| ==> !Contains(text, Placeholder(params[i].0))
    ensures ApplyParams(text, params) == text
    decreases |params|
  {
    if params != [] {
      assert ReplaceFirst(text, Placeholder(params[0].0), ValueString(params[0].1)) == text;
      AbsentPlaceholdersChangeNothing(text, params[1..]);
    }
  }

  // ---------------------------------------------------------------- getTranslation

  /** What `getTranslation(key, language, params)` returns. */
  function Translate(key: string, language: Language, params: Option<seq<(string, ParamValue)>>): (r: string)
    ensures var value := Resolve(Table(language), Split(key, '.'));
      !value.Str? ==> r == key
    ensures var value := Resolve(Table(language), Split(key, '.'));
      value.Str? && (params.None? || '{' !in value.s) ==> r == value.s
  {
    var value := Resolve(Table(language), Split(key, '.'));
    if !value.Str? then key
    else if params.Some? then ApplyParams(value.s, params.value)
    else value.s
  }

  /**
   * `getTranslation`: walks the dot-separated segments, returning the key as soon as one is
   * missing or when the walk does not end on a string, then fills in the parameters.
   */
  method GetTranslation(key: string, language: Language, params: Option<seq<(string, ParamValue)>>)
    returns (text: string)
    ensures text == Translate(key, language, params)
  {
    var keys := Split(key, '.');
    var current := Table(language);
    for i := 0 to |keys|
      invariant !current.Undefined?
      invariant Resolve(Table(language), keys) == Resolve(current, keys[i..])
    {
      assert keys[i..] == [keys[i]] + keys[i + 1..];
      var next := Property(current, keys[i]);
      if next.Undefined? {
        return key;
      }
      current := next;
    }
    assert keys[|keys|..] == [];
    if !current.Str? {
      return key;
    }
    if params.Some? {
      return ApplyParams(current.s, params.value);
    }
    return current.s;
  }

  // ---------------------------------------------------------------- properties

  /**
   * A single-segment key the tables do not define comes back unchanged, in every language and
   * whatever the parameters.
   */
  lemma MissingKeyFallsBack(key: string, language: Language, params: Option<seq<(string, ParamValue)>>)
    requires '.' !in key && Translations.KeyOf(key).None?
    ensures Translate(key, language, params) == key
  {
  }

  /** The login page asks for "login", which no table defines. */
  lemma LoginFallsBack(language: Language)
    ensures Translate("login", language, None) == "login"
  {
    MissingKeyFallsBack("login", language, None);
  }

  /** A defined single-segment key without parameters yields the table's string verbatim. */
  lemma DefinedKeyIsVerbatim(key: string, language: Language, k: Translations.TranslationKey)
    requires '.' !in key && Translations.KeyOf(key) == Some(k)
    ensures Translate(key, language, None) == TableText(language, k)
  {
    assert Split(key, '.') == [key];
    assert Property(Table(language), key) == Str(TableText(language, k));
    assert Resolve(Table(language), [key]) == Resolve(Str(TableText(language, k)), []);
  }

  /**
   * The tables define the same keys, so a single-segment key falls back in one language exactly
   * when it falls back in the others.
   */
  lemma SameKeysInEveryLanguage(key: string, language: Language, other: Language)
    requires '.' !in key
    ensures Resolve(Table(language), Split(key, '.')).Str? <==>
            Resolve(Table(other), Split(key, '.')).Str?
  {
  }

  /**
   * A walk that ends on a number returns the key: every defined key followed by `.length`
   * reaches the text's length and falls back.
   */
  lemma LengthFallsBack(key: string, language: Language)
    requires '.' !in key && Translations.KeyOf(key).Some?
    ensures Translate(key + "." + "length", language, None) == key + "." + "length"
  {
    LengthSegments(key);
    var name := TableText(language, Translations.KeyOf(key).value);
    assert Property(Table(language), key) == Str(name);
    assert Property(Str(name), "length") == Num(|name|);
    assert [key, "length"][1..] == ["length"];
    assert Resolve(Str(name), ["length"]) == Num(|name|);
  }

  lemma LengthSegments(key: string)
    requires '.' !in key
    ensures Split(key + "." + "length", '.') == [key, "length"]
  {
    SplitAfterPiece(key, "length", '.');
    LengthIsOneSegment();
  }

  lemma LengthIsOneSegment()
    ensures '.' !in "length" && Split("length", '.') == ["length"]
  {
    assert '.' !in "length";
  }

  /**
   * Past the first segment the walk indexes into the string, so a dotted key can resolve in one
   * language and fall back in another: "save.3" is the fourth letter of "Save" in English, but
   * the Arabic word has three letters.
   */
  lemma DottedKeysCanDiffer()
    ensures Translate("save.3", En, None) == "e"
    ensures Translate("save.3", Ar, None) == "save.3"
  {
    SaveThreeSegments();
    SaveThreeResolves();
  }

  lemma SaveThreeSegments()
    ensures Split("save.3", '.') == ["save", "3"]
  {
    assert '.' !in "save" && '.' !in "3";
    SplitAfterPiece("save", "3", '.');
    assert "save" + ['.'] + "3" == "save.3";
    assert Split("3", '.') == ["3"];
  }

  lemma SaveThreeResolves()
    ensures Resolve(Table(En), ["save", "3"]) == Str("e")
    ensures Resolve(Table(Ar), ["save", "3"]) == Undefined
  {
    assert Translations.KeyOf("save") == Some(Translations.Save);
    assert IsArrayIndex("3") && ParseDigits("3") == 3;
    var english, arabic := TableText(En, Translations.Save), TableText(Ar, Translations.Save);
    assert english == "Save" && |arabic| == 3;
    assert Property(Str(english), "3") == Str("e");
    assert Property(Str(arabic), "3") == Undefined;
    assert ["save", "3"][1..] == ["3"];
    assert Resolve(Str(english), ["3"]) == Str("e");
  }

  /** The dashboard alert with `count` 3 reads "You have 3 documents expiring in the next 30 days.". */
  lemma ExpiringAlertWithCount()
    ensures Translate("expiringDocumentsAlert", En, Some([("count", Number(3))])) ==
            "You have " + "3" + " documents expiring in the next 30 days."
  {
    AlertTemplate();
    AlertFilled();
  }

  /** The English alert template, looked up by its key. */
  lemma AlertTemplate()
    ensures Resolve(Table(En), Split("expiringDocumentsAlert", '.')) ==
            Str("You have " + "{count}" + " documents expiring in the next 30 days.")
  {
    var template := "You have " + "{count}" + " documents expiring in the next 30 days.";
    AlertKeyIsOneSegment();
    AlertKeyIsKnown();
    AlertEnglishText();
    assert Property(Table(En), "expiringDocumentsAlert") == Str(template);
    assert Resolve(Str(template), []) == Str(template);
  }

  lemma AlertKeyIsOneSegment()
    ensures Split("expiringDocumentsAlert", '.') == ["expiringDocumentsAlert"]
  {
    assert '.' !in "expiringDocumentsAlert";
  }

  lemma AlertKeyIsKnown()
    ensures Translations.KeyOf("expiringDocumentsAlert") == Some(Translations.ExpiringDocumentsAlert)
  {
  }

  lemma AlertEnglishText()
    ensures TableText(En, Translations.ExpiringDocumentsAlert) ==
            "You have " + "{count}" + " documents expiring in the next 30 days."
  {
  }

  /** Filling `{count}` with 3 in the English alert template. */
  lemma AlertFilled()
    ensures var before, after := "You have ", " documents expiring in the next 30 days.";
      ApplyParams(before + "{count}" + after, [("count", Number(3))]) == before + "3" + after
  {
    var before, after := "You have ", " documents expiring in the next 30 days.";
    var template := before + "{count}" + after;
    assert Placeholder("count") == "{count}";
    assert ValueString(Number(3)) == "3";
    AlertReplace();
    assert [("count", Number(3))][1..] == [];
  }

  lemma AlertPosition()
    ensures IndexOf("You have " + "{count}" + " documents expiring in the next 30 days.", "{count}") == 9
  {
    var before, after := "You have ", " documents expiring in the next 30 days.";
    var template := before + "{count}" + after;
    assert template[..9] == before;
    assert template[9..16] == "{count}";
    FirstOccurrence(template, "{count}", 9);
  }

  lemma AlertReplace()
    ensures var before, after := "You have ", " documents expiring in the next 30 days.";
      ReplaceFirst(before + "{count}" + after, "{count}", "3") == before + "3" + after
  {
    var before, after := "You have ", " documents expiring in the next 30 days.";
    var template := before + "{count}" + after;
    AlertPosition();
    assert template[..9] == before;
    assert template[16..] == after;
  }

  /**
   * A parameter value is not inserted verbatim when it holds a `$` pattern: the name "$&"
   * puts the placeholder itself back into the message.
   */
  lemma DollarPatternsExpand()
    ensures ReplaceFirst("Hi {name}", "{name}", "$&") == "Hi {name}"
  {
    assert OccursAt("Hi {name}", "{name}", 3);
    FirstOccurrence("Hi {name}", "{name}", 3);
  }
}
