/**
 * Gemini key rotation and the parts of the location analysis that do not
 * depend on the model (llm.py). The remote call is a function from the key
 * to its outcome; `json.loads` is a parameter that returns a value or the
 * text of the decoding error.
 */
module Llm {
  import opened Common
  import opened PyStr
  import opened JsonValue

  /** The argument of `configure_genai`: a string, a list of strings, or anything else, with its truthiness. */
  datatype KeyArg = KeyStr(s: string) | KeyList(keys: seq<string>) | KeyOther(truthy: bool)
  {
    /** Python truthiness of the argument. */
    predicate Truthy() {
      match this
      case KeyStr(s) => s != []
      case KeyList(ks) => ks != []
      case KeyOther(t) => t
    }
  }

  /** What one call with one key ends in. */
  datatype Outcome<T> = Success(value: T) | Failure(error: Error)

  /** A raised exception: `ResourceExhausted`, or any other exception with its message. */
  datatype Error = ResourceExhausted(msg: string) | OtherError(msg: string)

  /** What `call_with_rotation` ends in: a returned value, `None` for an empty pool, or an exception. */
  datatype Rotation<T> = Returned(value: T) | NoKeys | Raised(error: Error)

  /** A quota-type failure: `ResourceExhausted`, or a message mentioning "quota" or "429" in any letter case. */
  predicate IsQuota(e: Error) {
    e.ResourceExhausted? || Contains(Lower(e.msg), "quota") || Contains(Lower(e.msg), "429")
  }

  /** The rotation from position `i` of the pool on. */
  function RotateFrom<T>(keys: seq<string>, call: string -> Outcome<T>, i: nat): Rotation<T>
    decreases |keys| - i
  {
    if i >= |keys| then NoKeys
    else match call(keys[i])
      case Success(v) => Returned(v)
      case Failure(e) => if !IsQuota(e) || i == |keys| - 1 then Raised(e) else RotateFrom(keys, call, i + 1)
  }

  function Rotate<T>(keys: seq<string>, call: string -> Outcome<T>): Rotation<T> {
    RotateFrom(keys, call, 0)
  }

  /** How many keys the rotation from `i` uses. */
  function TriesFrom<T>(keys: seq<string>, call: string -> Outcome<T>, i: nat): (n: nat)
    ensures i <= |keys| ==> n <= |keys| - i
    ensures i < |keys| ==> n >= 1
    decreases |keys| - i
  {
    if i >= |keys| then 0
    else match call(keys[i])
      case Success(_) => 1
      case Failure(e) => if !IsQuota(e) || i == |keys| - 1 then 1 else 1 + TriesFrom(keys, call, i + 1)
  }

  /** The module-level key pool and the key `genai` is configured with. */
  class KeyPool {
    var keys: seq<string>
    var configured: Option<string>

    constructor()
      ensures keys == [] && configured == None
    {
      keys := [];
      configured := None;
    }

    /** `configure_genai` */
    method Configure(arg: KeyArg) returns (ok: bool)
      modifies this
      ensures match arg
              case KeyStr(s) =>
                if s == [] then ok == false && keys == old(keys) && configured == old(configured)
                else ok && keys == [s] && configured == Some(s)
              case KeyList(ks) =>
                if ks == [] then ok == false && keys == old(keys) && configured == old(configured)
                else ok && keys == ks && configured == Some(ks[0])
              case KeyOther(_) => ok == false && keys == old(keys) && configured == old(configured)
    {
      if !arg.Truthy() {
        return false;
      }
      if arg.KeyStr? {
        keys := [arg.s];
      } else if arg.KeyList? {
        keys := arg.keys;
      } else {
        return false;
      }
      if keys != [] {
        configured := Some(keys[0]);
        return true;
      }
      return false;
    }

    /**
     * `call_with_rotation`: each key of the pool in order, until a success, a
     * failure that is not quota-type, or a quota failure on the last key.
     * `tried` lists the keys used, in order.
     */
    method CallWithRotation<T>(call: string -> Outcome<T>) returns (r: Rotation<T>, tried: seq<string>)
      modifies this
      ensures keys == old(keys)
      ensures r == Rotate(keys, call)
      ensures tried == keys[..TriesFrom(keys, call, 0)]
      ensures configured == if tried == [] then old(configured) else Some(tried[|tried| - 1])
    {
      tried := [];
      var i := 0;
      while i < |keys|
        invariant 0 <= i <= |keys| && keys == old(keys)
        invariant tried == keys[..i]
        invariant configured == if i == 0 then old(configured) else Some(keys[i - 1])
        invariant Rotate(keys, call) == RotateFrom(keys, call, i)
        invariant TriesFrom(keys, call, 0) == i + TriesFrom(keys, call, i)
      {
        configured := Some(keys[i]);
        tried := tried + [keys[i]];
        var outcome := call(keys[i]);
        if outcome.Success? {
          return Returned(outcome.value), tried;
        }
        var e := outcome.error;
        if e.ResourceExhausted? {
          if i == |keys| - 1 {
            return Raised(e), tried;
          }
        } else {
          var lowerErr := Lower(e.msg);
          if Contains(lowerErr, "quota") || Contains(lowerErr, "429") {
            if i == |keys| - 1 {
              return Raised(e), tried;
            }
          } else {
            return Raised(e), tried;
          }
        }
        i := i + 1;
      }
      assert tried == keys[..TriesFrom(keys, call, 0)];
      return NoKeys, tried;
    }
  }

  /** An empty pool returns `None` without a single call. */
  lemma EmptyPool<T>(call: string -> Outcome<T>)
    ensures Rotate([], call) == NoKeys && TriesFrom([], call, 0) == 0
  {
  }

  /** Only an empty pool returns `None`. */
  lemma {:induction false} NoKeysOnlyWhenEmpty<T>(keys: seq<string>, call: string -> Outcome<T>, i: nat)
    requires i < |keys|
    ensures !RotateFrom(keys, call, i).NoKeys?
    decreases |keys| - i
  {
    if call(keys[i]).Failure? && IsQuota(call(keys[i]).error) && i != |keys| - 1 {
      NoKeysOnlyWhenEmpty(keys, call, i + 1);
    }
  }

  /** The keys before position `n` all failed with a quota-type error. */
  predicate QuotaUpTo<T>(keys: seq<string>, call: string -> Outcome<T>, n: nat)
    requires n <= |keys|
  {
    forall j :: 0 <= j < n ==> call(keys[j]).Failure? && IsQuota(call(keys[j]).error)
  }

  /**
   * The rotation stops at the first key that does not fail with a quota error
   * (success returned unchanged, other failure re-raised) and uses no key after it.
   */
  lemma {:induction false} RotationStopsAt<T>(keys: seq<string>, call: string -> Outcome<T>, n: nat, i: nat)
    requires i <= n < |keys| && QuotaUpTo(keys, call, n)
    requires call(keys[n]).Success? || !IsQuota(call(keys[n]).error)
    ensures RotateFrom(keys, call, i) == (match call(keys[n])
                                          case Success(v) => Returned(v)
                                          case Failure(e) => Raised(e))
    ensures TriesFrom(keys, call, i) == n - i + 1
    decreases n - i
  {
    if i < n {
      RotationStopsAt(keys, call, n, i + 1);
    }
  }

  /** When every key fails with a quota-type error, every key is used and the last key's error is raised. */
  lemma {:induction false} AllQuotaRaisesLast<T>(keys: seq<string>, call: string -> Outcome<T>, i: nat)
    requires i < |keys| && QuotaUpTo(keys, call, |keys|)
    ensures RotateFrom(keys, call, i) == Raised(call(keys[|keys| - 1]).error)
    ensures TriesFrom(keys, call, i) == |keys| - i
    decreases |keys| - i
  {
    if i < |keys| - 1 {
      AllQuotaRaisesLast(keys, call, i + 1);
    }
  }

  /** A returned value is the success of the first key that did not hit its quota. */
  lemma {:induction false} ReturnedIsFirstSuccess<T>(keys: seq<string>, call: string -> Outcome<T>, i: nat)
    requires i <= |keys| && QuotaUpTo(keys, call, i)
    requires RotateFrom(keys, call, i).Returned?
    ensures exists n :: i <= n < |keys| && QuotaUpTo(keys, call, n) && call(keys[n]) == Success(RotateFrom(keys, call, i).value)
    decreases |keys| - i
  {
    if call(keys[i]).Failure? {
      ReturnedIsFirstSuccess(keys, call, i + 1);
    }
  }

  /** The quota test ignores letter case and finds the words anywhere in the message. */
  lemma QuotaMessages(detail: string)
    ensures IsQuota(OtherError("429 Too Many Requests" + detail))
    ensures IsQuota(OtherError(detail + "QUOTA exceeded"))
  {
    var m1 := Lower("429 Too Many Requests" + detail);
    assert m1[..3] == "429";
    ContainsPrefix(m1, "429");
    var m2 := Lower(detail + "QUOTA exceeded");
    assert m2[|detail|..|detail| + 5] == "quota";
    ContainsAt(m2, "quota", |detail|);
  }

  /**
   * Worked example of `RotationStopsAt` and `ReturnedIsFirstSuccess`: a pool of
   * two keys whose first is out of quota returns the second key's success,
   * after two calls.
   */
  lemma SecondKeyAfterQuota<T>(a: string, b: string, call: string -> Outcome<T>, v: T)
    requires call(a).Failure? && IsQuota(call(a).error) && call(b) == Success(v)
    ensures Rotate([a, b], call) == Returned(v) && TriesFrom([a, b], call, 0) == 2
  {
    assert [a, b][0] == a && [a, b][1] == b;
    assert RotateFrom([a, b], call, 1) == Returned(v) && TriesFrom([a, b], call, 1) == 1;
  }

  // ---------------------------------------------------------------------
  // analyze_location

  /**
   * The state detected in the address: the first name of the benchmark table,
   * in its iteration order, that occurs in the address, else "United States".
   */
  method DetectState(stateNames: seq<string>, address: string) returns (detected: string)
    ensures || (exists i :: && 0 <= i < |stateNames| && detected == stateNames[i] && Contains(address, stateNames[i])
                            && forall j :: 0 <= j < i ==> !Contains(address, stateNames[j]))
            || (detected == "United States" && forall i :: 0 <= i < |stateNames| ==> !Contains(address, stateNames[i]))
  {
    detected := "United States";
    for i := 0 to |stateNames|
      invariant forall j :: 0 <= j < i ==> !Contains(address, stateNames[j])
    {
      if Contains(address, stateNames[i]) {
        detected := stateNames[i];
        return;
      }
    }
  }

  /** The reply text with every "```json" and then every "```" removed, stripped. */
  function CleanFence(text: string): string {
    Strip(ReplaceAll(ReplaceAll(text, "```json", ""), "```", ""))
  }

  function RemoveTicks(s: string): string {
    ReplaceAll(s, "```", "")
  }

  lemma {:induction false} RemoveTicksFirst(u: string)
    ensures StartsWith(RemoveTicks(u), "`") ==> StartsWith(u, "`")
    decreases |u|
  {
    if |u| >= 3 && StartsWith(u, "```") {
      RemoveTicksFirst(u[3..]);
    }
  }

  lemma {:induction false} RemoveTicksFirstTwo(t: string)
    ensures StartsWith(RemoveTicks(t), "``") ==> StartsWith(t, "``")
    decreases |t|
  {
    if |t| >= 3 {
      if StartsWith(t, "```") {
        RemoveTicksFirstTwo(t[3..]);
        assert t[..2] == t[..3][..2];
      } else {
        var rest := RemoveTicks(t[1..]);
        RemoveTicksFirst(t[1..]);
        if StartsWith(RemoveTicks(t), "``") {
          assert RemoveTicks(t) == [t[0]] + rest;
          assert rest[..1] == RemoveTicks(t)[1..2];
          assert t[1..][..1] == t[1..2];
        }
      }
    }
  }

  /**
   * Removing every "```" leaves none behind: a piece kept before a removed
   * match never ends in a backtick, so no new match forms across a joint.
   */
  lemma {:induction false} RemoveTicksComplete(s: string)
    ensures !Contains(RemoveTicks(s), "```")
    decreases |s|
  {
    if |s| < 3 {
    } else if StartsWith(s, "```") {
      RemoveTicksComplete(s[3..]);
      assert |"```"| == 3;
      assert RemoveTicks(s) == RemoveTicks(s[3..]);
    } else {
      var rest := RemoveTicks(s[1..]);
      RemoveTicksComplete(s[1..]);
      RemoveTicksFirstTwo(s[1..]);
      assert RemoveTicks(s) == [s[0]] + rest;
      assert s[0] == '`' ==> !StartsWith(s[1..], "``") by {
        assert |s[1..]| >= 2 ==> s[..3] == [s[0]] + s[1..][..2];
      }
      ConsWithoutTicks(s[0], rest);
    }
  }

  /** Putting a character in front of text without "```" creates none, unless a backtick meets a leading "``". */
  lemma ConsWithoutTicks(c: char, rest: string)
    requires !Contains(rest, "```")
    requires c == '`' ==> !StartsWith(rest, "``")
    ensures !Contains([c] + rest, "```")
  {
    ContainsCons(c, rest, "```");
    var r := [c] + rest;
    assert |r| >= 3 ==> r[..3][0] == c && r[..3][1..] == rest[..2];
    assert "```"[0] == '`' && "```"[1..] == "``";
  }

  /** The cleaned text never contains a code fence. */
  lemma CleanFenceNoFence(text: string)
    ensures !Contains(CleanFence(text), "```")
  {
    var t := RemoveTicks(ReplaceAll(text, "```json", ""));
    RemoveTicksComplete(ReplaceAll(text, "```json", ""));
    var i, j := StripSlice(t);
    ContainsSlice(t, "```", i, j);
  }

  /** A prefix free of the pattern's first character passes through a replacement unchanged. */
  lemma {:induction false} ReplaceAfterPlainPrefix(a: string, b: string, pat: string, rep: string)
    requires pat != [] && pat[0] !in a
    ensures ReplaceAll(a + b, pat, rep) == a + ReplaceAll(b, pat, rep)
    decreases |a|
  {
    if a == [] {
      assert a + b == b;
    } else {
      var s := a + b;
      assert s[0] == a[0];
      assert s[1..] == a[1..] + b;
      assert pat[0] !in a[1..];
      if |s| < |pat| {
        ReplaceAbsentShort(b, pat, rep);
      } else {
        assert !StartsWith(s, pat) by {
          assert s[..|pat|][0] == s[0];
        }
        ReplaceAfterPlainPrefix(a[1..], b, pat, rep);
        assert ReplaceAll(s, pat, rep) == [s[0]] + ReplaceAll(s[1..], pat, rep);
        assert [a[0]] + a[1..] == a;
      }
    }
  }

  lemma ReplaceAbsentShort(s: string, pat: string, rep: string)
    requires pat != [] && |s| < |pat|
    ensures ReplaceAll(s, pat, rep) == s
  {
  }

  /** A reply fenced as a JSON code block, with no backtick inside, cleans to its stripped body. */
  lemma CleanFencedBlock(body: string)
    requires '`' !in body
    ensures CleanFence("```json" + body + "```") == Strip(body)
  {
    var text := "```json" + body + "```";
    assert text == "```json" + (body + "```");
    assert StartsWith(text, "```json");
    assert text[7..] == body + "```";
    ReplaceAfterPlainPrefix(body, "```", "```json", "");
    assert ReplaceAll(text, "```json", "") == body + "```";
    ReplaceAfterPlainPrefix(body, "```", "```", "");
    assert ReplaceAll("```", "```", "") == [] by {
      assert StartsWith("```", "```");
      assert "```"[3..] == [];
    }
    assert body + [] == body;
  }

  /** The generation call for one key: the reply text, or an exception. */
  datatype Generation = Text(text: string) | GenerationError(error: Error)

  /** `json.loads` outcome: a value, or a decoding error with its message. */
  datatype Parsed = Parsed(value: Json) | ParseError(msg: string)

  /** One `_generate` call: clean the text and parse it; a decoding error is an ordinary exception. */
  function GenerateOnce(generate: string -> Generation, parse: string -> Parsed): string -> Outcome<Json> {
    (k: string) =>
      match generate(k)
      case GenerationError(e) => Failure(e)
      case Text(t) =>
        match parse(CleanFence(t))
        case Parsed(v) => Success(v)
        case ParseError(m) => Failure(OtherError(m))
  }

  /** The object returned when the analysis fails. */
  function Fallback(modelName: string, message: string): (j: Json)
    ensures j.JObj? && j.fields.Keys == {"highlights", "risks", "score", "investment_strategy"}
    ensures j.fields["score"] == JInt(0)
    ensures j.fields["highlights"].JArr? && |j.fields["highlights"].items| == 1
    ensures j.fields["risks"].JArr? && |j.fields["risks"].items| == 2
  {
    JObj(map[
      "highlights" := JArr([JStr("Error generating analysis")]),
      "risks" := JArr([JStr("Model: " + modelName), JStr(message)]),
      "score" := JInt(0),
      "investment_strategy" := JStr("Please check API Key or Model selection.")])
  }

  /** The analysis from the rotation's end: the parsed value, `None` (JSON null) for no keys, or the fallback. */
  function AnalysisResult(rot: Rotation<Json>, modelName: string): Json {
    match rot
    case Returned(v) => v
    case NoKeys => JNull
    case Raised(e) => Fallback(modelName, e.msg)
  }

  /**
   * `analyze_location`: detect the state (which only selects the benchmarks
   * quoted in the prompt), then generate with key rotation.
   */
  method AnalyzeLocation(pool: KeyPool, address: string, stateNames: seq<string>, modelName: string,
                         generate: string -> Generation, parse: string -> Parsed)
    returns (result: Json, detected: string)
    modifies pool
    ensures pool.keys == old(pool.keys)
    ensures var n := TriesFrom(old(pool.keys), GenerateOnce(generate, parse), 0);
            pool.configured == if n == 0 then old(pool.configured) else Some(old(pool.keys)[n - 1])
    ensures result == AnalysisResult(Rotate(pool.keys, GenerateOnce(generate, parse)), modelName)
    ensures || (exists i :: && 0 <= i < |stateNames| && detected == stateNames[i] && Contains(address, stateNames[i])
                            && forall j :: 0 <= j < i ==> !Contains(address, stateNames[j]))
            || (detected == "United States" && forall i :: 0 <= i < |stateNames| ==> !Contains(address, stateNames[i]))
    ensures detected == "United States" || detected in stateNames
  {
    detected := DetectState(stateNames, address);
    var rot, tried := pool.CallWithRotation(GenerateOnce(generate, parse));
    assert |tried| == TriesFrom(old(pool.keys), GenerateOnce(generate, parse), 0);
    result := AnalysisResult(rot, modelName);
  }

  /** Any raised error, whether from the call or from parsing, yields the fallback with score 0. */
  lemma AnalysisFallback(keys: seq<string>, generate: string -> Generation, parse: string -> Parsed, modelName: string)
    requires Rotate(keys, GenerateOnce(generate, parse)).Raised?
    ensures var r := AnalysisResult(Rotate(keys, GenerateOnce(generate, parse)), modelName);
            r == Fallback(modelName, Rotate(keys, GenerateOnce(generate, parse)).error.msg)
            && r.fields["score"] == JInt(0)
  {
  }

  /** A reply that parses on the first key is the analysis, as parsed. */
  lemma AnalysisFirstKey(k: string, rest: seq<string>, generate: string -> Generation, parse: string -> Parsed,
                         modelName: string)
    requires generate(k).Text? && parse(CleanFence(generate(k).text)).Parsed?
    ensures AnalysisResult(Rotate([k] + rest, GenerateOnce(generate, parse)), modelName)
            == parse(CleanFence(generate(k).text)).value
  {
  }
}
