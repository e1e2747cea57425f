/**
 * The admin page (pages/admin_panel.py): a password gate kept in the
 * session, the model list offered for the configured model, the whitelist
 * text parsed into e-mail entries, and the configuration assembled for
 * saving, together with the four-key save of the root admin page
 * (admin_panel.py). The widgets themselves are not modelled; their values
 * are inputs.
 */
module AdminPanel {
  import opened Common
  import opened PyStr
  import opened JsonValue
  import ConfigManager

  /** `st.secrets.get("ADMIN_PASSWORD", "housmart_admin")` */
  function AdminPassword(secret: Option<string>): string {
    secret.GetOr("housmart_admin")
  }

  /** The page's session state: whether the admin has logged in. */
  class Session {
    var authenticated: bool

    /** A fresh session starts unauthenticated. */
    constructor()
      ensures !authenticated
    {
      authenticated := false;
    }

    /** Pressing Login with `input`: the flag is set only on the right password, and never cleared. */
    method Login(input: string, secret: Option<string>)
      modifies this
      ensures authenticated <==> old(authenticated) || input == AdminPassword(secret)
    {
      if input == AdminPassword(secret) {
        authenticated := true;
      }
    }
  }

  /** Without a configured secret exactly "housmart_admin" is accepted. */
  lemma DefaultPassword(input: string)
    ensures input == AdminPassword(None) <==> input == "housmart_admin"
  {
  }

  /** The six built-in model names, in the order offered. */
  const BuiltinModels: seq<Json> := [
    JStr("gemini-2.5-pro"),
    JStr("gemini-2.5-flash"),
    JStr("gemini-2.5-flash-lite"),
    JStr("gemini-2.0-flash"),
    JStr("gemini-1.5-pro"),
    JStr("gemini-1.5-flash")
  ]

  /** `config.get("model_name", "gemini-2.5-flash")` */
  function CurrentModel(config: map<string, Json>): Json {
    Get(config, "model_name", JStr("gemini-2.5-flash"))
  }

  /**
   * The model list: the built-ins, with the current model appended when it
   * is not one of them, and `model_options.index(current_model)`.
   */
  method NormalizeModelOptions(current: Json) returns (options: seq<Json>, index: nat)
    ensures |BuiltinModels| <= |options| <= |BuiltinModels| + 1
    ensures options[..|BuiltinModels|] == BuiltinModels
    ensures current in BuiltinModels ==> options == BuiltinModels
    ensures current !in BuiltinModels ==> options == BuiltinModels + [current]
    ensures index < |options| && options[index] == current
    ensures forall j :: 0 <= j < index ==> options[j] != current
  {
    options := BuiltinModels;
    if current !in options {
      options := options + [current];
    }
    index := 0;
    ghost var found :| 0 <= found < |options| && options[found] == current;
    while options[index] != current
      invariant index <= found
      invariant forall j :: 0 <= j < index ==> options[j] != current
      decreases |options| - index
    {
      index := index + 1;
    }
  }

  /** `s.replace(",", "\n")` character by character. */
  function CommasToNewlines(s: string): (r: string)
    ensures |r| == |s|
  {
    seq(|s|, i requires 0 <= i < |s| => if s[i] == ',' then '\n' else s[i])
  }

  /** Replacing the one-character pattern "," is the character-wise substitution. */
  lemma {:induction false} ReplaceComma(s: string)
    ensures ReplaceAll(s, [','], ['\n']) == CommasToNewlines(s)
    decreases |s|
  {
    if |s| >= 1 {
      ReplaceComma(s[1..]);
      assert CommasToNewlines(s) == [CommasToNewlines(s)[0]] + CommasToNewlines(s[1..]);
    }
  }

  /** One piece's contribution: its stripped, lower-cased text, or nothing when it is blank. */
  function CleanPiece(x: string): seq<string> {
    if Strip(x) != [] then [Lower(Strip(x))] else []
  }

  /** `[x.strip().lower() for x in raw if x.strip()]` */
  function CleanEntries(raw: seq<string>): seq<string>
    decreases |raw|
  {
    if raw == [] then [] else CleanPiece(raw[0]) + CleanEntries(raw[1..])
  }

  /** The whitelist text split at commas and newlines, each piece stripped and lower-cased, empties dropped. */
  function ParseWhitelist(input: string): seq<string> {
    CleanEntries(Split(ReplaceAll(input, [','], ['\n']), '\n'))
  }

  /** What makes a stored whitelist entry. */
  predicate CleanEntry(e: string) {
    e != [] && Trimmed(e) && IsLower(e) && ',' !in e && '\n' !in e
  }

  /** Every character of every piece of a split comes from the text. */
  lemma {:induction false} SplitChars(s: string, sep: char)
    ensures forall k, c :: 0 <= k < |Split(s, sep)| && c in Split(s, sep)[k] ==> c in s
    decreases |s|
  {
    if s != [] {
      SplitChars(s[1..], sep);
      var rest := Split(s[1..], sep);
      assert s == [s[0]] + s[1..];
      forall k, c | 0 <= k < |Split(s, sep)| && c in Split(s, sep)[k]
        ensures c in s
      {
        if s[0] != sep && k == 0 {
          assert Split(s, sep)[0] == [s[0]] + rest[0];
          if c != s[0] {
            assert c in rest[0];
          }
        } else if s[0] != sep {
          assert Split(s, sep)[k] == rest[k];
        } else if k > 0 {
          assert Split(s, sep)[k] == rest[k - 1];
        }
      }
    }
  }

  /** Stripping and lower-casing a piece free of a character leaves it free of that character. */
  lemma CleanedPieceAvoids(x: string, c: char)
    requires c !in x && !('A' <= c <= 'Z') && !('a' <= c <= 'z')
    ensures c !in Lower(Strip(x))
  {
    var i, j := StripSlice(x);
    LowerAvoids(x[i..j], c);
  }

  lemma LowerAvoids(t: string, c: char)
    requires c !in t && !('a' <= c <= 'z')
    ensures c !in Lower(t)
  {
    forall k | 0 <= k < |t|
      ensures Lower(t)[k] != c
    {
      assert t[k] in t;
    }
  }

  /** A non-blank piece free of commas and newlines cleans to a clean entry. */
  lemma PieceClean(x: string)
    requires ',' !in x && '\n' !in x && Strip(x) != []
    ensures CleanEntry(Lower(Strip(x)))
  {
    var t := Strip(x);
    LowerKeepsTrimmed(t);
    CleanedPieceAvoids(x, ',');
    CleanedPieceAvoids(x, '\n');
    assert Lower(Lower(t)) == Lower(t);
  }

  /** The entries cleaned from pieces free of commas and newlines are clean. */
  lemma {:induction false} CleanEntriesClean(raw: seq<string>)
    requires forall x :: x in raw ==> ',' !in x && '\n' !in x
    ensures forall e :: e in CleanEntries(raw) ==> CleanEntry(e)
    decreases |raw|
  {
    if raw != [] {
      CleanEntriesClean(raw[1..]);
      if Strip(raw[0]) != [] {
        PieceClean(raw[0]);
      }
      assert CleanEntries(raw) == CleanPiece(raw[0]) + CleanEntries(raw[1..]);
    }
  }

  /** Every parsed entry is non-empty, trimmed, lower-case, and free of commas and newlines. */
  lemma ParsedEntriesClean(input: string)
    ensures forall k :: 0 <= k < |ParseWhitelist(input)| ==> CleanEntry(ParseWhitelist(input)[k])
  {
    var replaced := ReplaceAll(input, [','], ['\n']);
    ReplaceComma(input);
    assert ',' !in replaced;
    var pieces := Split(replaced, '\n');
    SplitChars(replaced, '\n');
    forall x | x in pieces
      ensures ',' !in x && '\n' !in x
    {
      var k :| 0 <= k < |pieces| && pieces[k] == x;
    }
    CleanEntriesClean(pieces);
  }

  /** Commas and newlines are alike as separators. */
  lemma CommaLikeNewline(a: string, b: string)
    ensures ParseWhitelist(a + [','] + b) == ParseWhitelist(a + ['\n'] + b)
  {
    var s1, s2 := a + [','] + b, a + ['\n'] + b;
    ReplaceComma(s1);
    ReplaceComma(s2);
    forall i | 0 <= i < |s1|
      ensures CommasToNewlines(s1)[i] == CommasToNewlines(s2)[i]
    {
      if i != |a| {
        assert s1[i] == s2[i];
      }
    }
    assert CommasToNewlines(s1) == CommasToNewlines(s2);
  }

  /** The cleaned entries of two runs of pieces are the entries of each, in order. */
  lemma {:induction false} CleanEntriesAppend(a: seq<string>, b: seq<string>)
    ensures CleanEntries(a + b) == CleanEntries(a) + CleanEntries(b)
    decreases |a|
  {
    if a != [] {
      var ab := a + b;
      assert ab[0] == a[0] && ab[1..] == a[1..] + b;
      CleanEntriesAppend(a[1..], b);
      var p := CleanPiece(a[0]);
      assert CleanEntries(ab) == p + CleanEntries(a[1..] + b);
      assert CleanEntries(a) == p + CleanEntries(a[1..]);
    } else {
      assert a + b == b;
    }
  }

  /** A character absent from every piece is absent from their join. */
  lemma {:induction false} JoinAvoids(parts: seq<string>, sep: char, c: char)
    requires c != sep
    requires forall k :: 0 <= k < |parts| ==> c !in parts[k]
    ensures c !in Join(parts, sep)
    decreases |parts|
  {
    if |parts| > 1 {
      JoinAvoids(parts[1..], sep, c);
    }
  }

  /** Clean pieces come back from cleaning unchanged. */
  lemma {:induction false} CleanEntriesOfClean(ws: seq<string>)
    requires forall k :: 0 <= k < |ws| ==> CleanEntry(ws[k])
    ensures CleanEntries(ws) == ws
    decreases |ws|
  {
    if ws != [] {
      var w := ws[0];
      assert CleanEntry(w);
      StripTrimmed(w);
      assert CleanPiece(w) == [w];
      CleanEntriesOfClean(ws[1..]);
      assert ws == [w] + ws[1..];
    }
  }

  /** Text without commas is parsed by splitting it at newlines alone. */
  lemma CommaFreeParse(text: string)
    requires ',' !in text
    ensures ParseWhitelist(text) == CleanEntries(Split(text, '\n'))
  {
    ReplaceComma(text);
    CommaFreeFixed(text);
  }

  /** Without commas the substitution changes nothing. */
  lemma CommaFreeFixed(s: string)
    requires forall i :: 0 <= i < |s| ==> s[i] != ','
    ensures CommasToNewlines(s) == s
  {
  }

  /**
   * The whitelist round trip: the stored entries, joined with newlines
   * into the text area and parsed back on save, are the same list.
   */
  lemma WhitelistRoundTrip(ws: seq<string>)
    requires forall k :: 0 <= k < |ws| ==> CleanEntry(ws[k])
    ensures ParseWhitelist(Join(ws, '\n')) == ws
  {
    var text := Join(ws, '\n');
    JoinAvoids(ws, '\n', ',');
    CommaFreeParse(text);
    if ws == [] {
      assert Split(text, '\n') == [[]];
    } else {
      SplitJoin(ws, '\n');
      CleanEntriesOfClean(ws);
    }
  }

  /** Parsing the stored form of a parsed whitelist gives it back: saving twice changes nothing. */
  lemma WhitelistIdempotent(input: string)
    ensures ParseWhitelist(Join(ParseWhitelist(input), '\n')) == ParseWhitelist(input)
  {
    ParsedEntriesClean(input);
    WhitelistRoundTrip(ParseWhitelist(input));
  }

  /** `new_config`: the form's values under the ten configuration keys. */
  function NewConfig(selectedModel: Json, temperature: real, customizedScoring: bool, cacheTtl: int,
                     dailyLimit: bool, whitelist: seq<string>, geoapify: bool, rentcast: bool,
                     census: bool, llm: bool): map<string, Json>
  {
    map[
      "model_name" := selectedModel,
      "temperature" := JReal(temperature),
      "customized_scoring_method" := JBool(customizedScoring),
      "cache_ttl_hours" := JInt(cacheTtl),
      "enable_daily_limit" := JBool(dailyLimit),
      "whitelist_emails" := JArr(seq(|whitelist|, i requires 0 <= i < |whitelist| => JStr(whitelist[i]))),
      "enable_geoapify" := JBool(geoapify),
      "enable_rentcast" := JBool(rentcast),
      "enable_census" := JBool(census),
      "enable_llm" := JBool(llm)
    ]
  }

  /** The saved configuration has exactly the default configuration's keys. */
  lemma NewConfigKeys(selectedModel: Json, temperature: real, customizedScoring: bool, cacheTtl: int,
                      dailyLimit: bool, whitelist: seq<string>, geoapify: bool, rentcast: bool,
                      census: bool, llm: bool)
    ensures NewConfig(selectedModel, temperature, customizedScoring, cacheTtl, dailyLimit, whitelist,
                      geoapify, rentcast, census, llm).Keys == ConfigManager.DefaultConfig.Keys
  {
  }

  /** The configuration the root admin page (admin_panel.py) saves: the four model and cache settings only. */
  function RootPageConfig(selectedModel: Json, temperature: real, customizedScoring: bool, cacheTtl: int): map<string, Json> {
    map[
      "model_name" := selectedModel,
      "temperature" := JReal(temperature),
      "customized_scoring_method" := JBool(customizedScoring),
      "cache_ttl_hours" := JInt(cacheTtl)]
  }

  /**
   * After the root page saves, the next read gives its four values, and the
   * whitelist, the daily limit and the four service flags come back as their
   * defaults, whatever the other page had set them to.
   */
  lemma RootPageSaveResets(selectedModel: Json, temperature: real, customizedScoring: bool, cacheTtl: int,
                           mtime: real, now: real, later: real)
    ensures var saved := RootPageConfig(selectedModel, temperature, customizedScoring, cacheTtl);
            var got := ConfigManager.GetConfigStep(ConfigManager.CacheState(JObj(saved), mtime, now),
                                                   ConfigManager.FileState(true, mtime, ConfigManager.Loaded(JObj(saved))),
                                                   later).0;
            && got.Keys == ConfigManager.DefaultConfig.Keys
            && got["model_name"] == selectedModel && got["temperature"] == JReal(temperature)
            && got["customized_scoring_method"] == JBool(customizedScoring) && got["cache_ttl_hours"] == JInt(cacheTtl)
            && (forall k :: k in got && k !in saved ==> got[k] == ConfigManager.DefaultConfig[k])
            && got["whitelist_emails"] == JArr([]) && got["enable_census"] == JBool(true)
  {
    var saved := RootPageConfig(selectedModel, temperature, customizedScoring, cacheTtl);
    ConfigManager.SaveThenGet(saved, mtime, now, later);
    RootPageMerged(selectedModel, temperature, customizedScoring, cacheTtl);
  }

  /** The root page's four keys laid over the defaults. */
  lemma RootPageMerged(selectedModel: Json, temperature: real, customizedScoring: bool, cacheTtl: int)
    ensures var saved := RootPageConfig(selectedModel, temperature, customizedScoring, cacheTtl);
            var got := ConfigManager.DefaultConfig + saved;
            && got.Keys == ConfigManager.DefaultConfig.Keys
            && got["model_name"] == selectedModel && got["temperature"] == JReal(temperature)
            && got["customized_scoring_method"] == JBool(customizedScoring) && got["cache_ttl_hours"] == JInt(cacheTtl)
            && (forall k :: k in got && k !in saved ==> got[k] == ConfigManager.DefaultConfig[k])
            && got["whitelist_emails"] == JArr([]) && got["enable_census"] == JBool(true)
  {
    var saved := RootPageConfig(selectedModel, temperature, customizedScoring, cacheTtl);
    assert saved.Keys <= ConfigManager.DefaultConfig.Keys;
    assert "whitelist_emails" !in saved && "enable_census" !in saved;
  }
}
