/** `Eink.createBook` (Eink.js:442-465): a book's configuration read from the CSS
    custom properties `--<key>` of its `@media eink` rule, one key of
    `Book.prototype.bookConfig` (Book.js:3102-3118) at a time. */
module BookConfig {
  import opened Wrappers
  import opened JsStrings

  /** The keys of `Book.prototype.bookConfig`, in declaration order. */
  const ConfigKeys: seq<string> :=
    ["contents", "einkStyle", "bookTitle", "author", "upperMargin", "lowerMargin", "leftMargin", "rightMargin",
     "fullScreen", "zIndex", "minImgHeight", "pagingMethod", "useContentTable", "useNotes", "lang"]

  /** The keys `createBook` reads: `Object.keys(Book.prototype.bookConfig)` after the
      `Eink` constructor has added `allowDraw` and `allowHighlight` to the prototype's
      configuration (Eink.js:381-382), which it does before any book is created. */
  const CreateBookKeys: seq<string> := ConfigKeys + ["allowDraw", "allowHighlight"]

  /** The keys read as booleans, and those read as integers (Eink.js:453, 455). */
  const BooleanKeys: seq<string> := ["fullScreen", "allowDraw", "allowHighlight", "useNotes"]
  const IntegerKeys: seq<string> := ["upperMargin", "lowerMargin", "leftMargin", "rightMargin", "zIndex", "minImgHeight"]

  /** A decoded value; `Num(None)` is `NaN`. */
  datatype ConfigValue = Bool(b: bool) | Num(n: Option<int>) | Str(s: string)

  /** JavaScript truthiness of a decoded value, as `if (bookConfig.key)` reads it. */
  predicate Truthy(v: ConfigValue) {
    match v
    case Bool(b) => b
    case Num(n) => n.Some? && n.value != 0
    case Str(s) => s != ""
  }

  /** `rule.style.getPropertyValue("--" + key)`: "" when the rule does not set it.
      `css` maps custom-property names to their values. */
  function CssValue(css: map<string, string>, key: string): string {
    if "--" + key in css then css["--" + key] else ""
  }

  /** The conversion of Eink.js:453-460 as written. */
  function DecodeValueAsWritten(key: string, value: string): ConfigValue {
    if key in BooleanKeys then Bool(Trim(value) == "true")
    else if key in IntegerKeys then Num(ParseInt(value))
    else Str(Trim(value))
  }

  /** `useContentTable` read as written: `--useContentTable: false` gives the
      string "false", which is truthy, so Book.js:169 still builds the table. */
  lemma UseContentTableFalseAsWritten()
    ensures DecodeValueAsWritten("useContentTable", "false") == Str("false")
    ensures Truthy(DecodeValueAsWritten("useContentTable", "false"))
  {
    TrimOfUnpadded("false");
  }

  /** The boolean keys with `useContentTable` among them, as the default `true` of
      Book.js:3115 and the test of Book.js:169 call for. */
  const FlagKeys: seq<string> := BooleanKeys + ["useContentTable"]

  /** The corrected conversion. */
  function DecodeValue(key: string, value: string): ConfigValue {
    if key in FlagKeys then Bool(Trim(value) == "true")
    else if key in IntegerKeys then Num(ParseInt(value))
    else Str(Trim(value))
  }

  /** With the correction every flag key, `useContentTable` included, is on exactly
      when its value is "true" up to surrounding blanks. */
  lemma FlagKeysDecodeToTheirText(key: string, value: string)
    requires key in FlagKeys
    ensures DecodeValue(key, value).Bool?
    ensures Truthy(DecodeValue(key, value)) <==> Trim(value) == "true"
  {
  }

  /** The correction touches `useContentTable` only. */
  lemma DecodeValueChangesOnlyUseContentTable(key: string, value: string)
    requires key != "useContentTable"
    ensures DecodeValue(key, value) == DecodeValueAsWritten(key, value)
  {
    assert key in FlagKeys <==> key in BooleanKeys by {
      assert FlagKeys == BooleanKeys + ["useContentTable"];
    }
  }

  /** The config after the `forEach` over `keys`. */
  function Decoded(keys: seq<string>, css: map<string, string>): map<string, ConfigValue> {
    if keys == [] then map[]
    else
      var key := keys[|keys| - 1];
      var m := Decoded(keys[..|keys| - 1], css);
      if CssValue(css, key) != "" then m[key := DecodeValue(key, CssValue(css, key))] else m
  }

  /** The whole of `createBook`'s configuration; a missing `lang` takes the Eink
      instance's own, when it has one. */
  function BookConfigOf(css: map<string, string>, einkLang: Option<string>): map<string, ConfigValue> {
    var m := Decoded(CreateBookKeys, css);
    if "lang" !in m && einkLang.Some? then m["lang" := Str(einkLang.value)] else m
  }

  /** A key ends up in the config exactly when it is one of `keys` and its CSS value
      is not empty, and then holds that value decoded. */
  lemma {:induction false} DecodedMeaning(keys: seq<string>, css: map<string, string>, key: string)
    ensures key in Decoded(keys, css) <==> key in keys && CssValue(css, key) != ""
    ensures key in Decoded(keys, css) ==> Decoded(keys, css)[key] == DecodeValue(key, CssValue(css, key))
  {
    if keys != [] {
      var init := keys[..|keys| - 1];
      DecodedMeaning(init, css, key);
      assert keys == init + [keys[|keys| - 1]];
    }
  }

  /** What `createBook` promises for each key of the configuration. */
  lemma BookConfigMeaning(css: map<string, string>, einkLang: Option<string>, key: string)
    requires key in CreateBookKeys
    ensures var c := BookConfigOf(css, einkLang);
      var v := CssValue(css, key);
      (v != "" ==> key in c && c[key] == DecodeValue(key, v)) &&
      (v == "" && key != "lang" ==> key !in c) &&
      (v == "" && key == "lang" ==> (key in c <==> einkLang.Some?) && (key in c ==> c[key] == Str(einkLang.value)))
  {
    DecodedMeaning(CreateBookKeys, css, key);
  }

  /** Keys outside the prototype's configuration are never read. */
  lemma OnlyBookConfigKeysAreRead(css: map<string, string>, einkLang: Option<string>, key: string)
    requires key !in CreateBookKeys
    ensures key !in BookConfigOf(css, einkLang)
  {
    DecodedMeaning(CreateBookKeys, css, key);
  }

  /** A book rule with `--allowDraw: false` or `--allowHighlight: false` turns drawing or
      highlighting off (Eink.js:1939, 2402): the two keys the `Eink` constructor adds
      are read as booleans like the others. */
  lemma EinkKeysTurnOff(css: map<string, string>, einkLang: Option<string>, key: string)
    requires key == "allowDraw" || key == "allowHighlight"
    requires "--" + key in css && css["--" + key] == "false"
    ensures key in BookConfigOf(css, einkLang) && BookConfigOf(css, einkLang)[key] == Bool(false)
    ensures !Truthy(BookConfigOf(css, einkLang)[key])
  {
    assert key in BooleanKeys && key in FlagKeys && key in CreateBookKeys by {
      assert BooleanKeys[1] == "allowDraw" && BooleanKeys[2] == "allowHighlight";
      assert FlagKeys[1] == "allowDraw" && FlagKeys[2] == "allowHighlight";
      assert CreateBookKeys[15] == "allowDraw" && CreateBookKeys[16] == "allowHighlight";
    }
    assert CssValue(css, key) == "false";
    TrimOfUnpadded("false");
    assert DecodeValue(key, "false") == Bool(false);
    DecodedMeaning(CreateBookKeys, css, key);
    var m := Decoded(CreateBookKeys, css);
    assert key in m && m[key] == Bool(false);
    assert BookConfigOf(css, einkLang) == if "lang" !in m && einkLang.Some? then m["lang" := Str(einkLang.value)] else m;
  }

  /** One more key: set to its decoded value when its CSS value is not empty. */
  lemma DecodedNext(keys: seq<string>, css: map<string, string>, n: nat)
    requires n < |keys|
    ensures var m := Decoded(keys[..n], css);
      var v := CssValue(css, keys[n]);
      Decoded(keys[..n + 1], css) == if v != "" then m[keys[n] := DecodeValue(keys[n], v)] else m
  {
    assert keys[..n + 1][..n] == keys[..n];
  }

  /** `createBook`'s loop filling `bookConfig`. */
  method CreateBookConfig(css: map<string, string>, einkLang: Option<string>) returns (config: map<string, ConfigValue>)
    ensures config == BookConfigOf(css, einkLang)
  {
    config := map[];
    var i := 0;
    while i < |CreateBookKeys|
      invariant 0 <= i <= |CreateBookKeys|
      invariant config == Decoded(CreateBookKeys[..i], css)
    {
      DecodedNext(CreateBookKeys, css, i);
      var prop := CreateBookKeys[i];
      var cssValue := CssValue(css, prop);
      if cssValue != "" {
        if prop in FlagKeys {
          config := config[prop := Bool(Trim(cssValue) == "true")];
        } else if prop in IntegerKeys {
          config := config[prop := Num(ParseInt(cssValue))];
        } else {
          config := config[prop := Str(Trim(cssValue))];
        }
      }
      i := i + 1;
    }
    assert CreateBookKeys[..i] == CreateBookKeys;
    if "lang" !in config && einkLang.Some? {
      config := config["lang" := Str(einkLang.value)];
    }
  }
}
