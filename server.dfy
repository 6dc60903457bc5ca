/** The response shaping of the server's `/api/data` route (server.js):
    stripping a Markdown code fence from the generated text, and turning the
    parsed `cropDetails` array into a map keyed by id. The text generation
    and `JSON.parse` are not part of this model; the parsed document is
    given as a map from top-level keys to values. */
module ServerShaping {
  import opened Wrappers
  import opened Types

  /** The characters `String.prototype.trim` removes: the ECMAScript
      WhiteSpace and LineTerminator code points. */
  predicate IsJsWhitespace(c: char) {
    var n := c as int;
    || n == 0x09 || n == 0x0A || n == 0x0B || n == 0x0C || n == 0x0D || n == 0x20
    || n == 0xA0 || n == 0x1680 || (0x2000 <= n <= 0x200A) || n == 0x2028
    || n == 0x2029 || n == 0x202F || n == 0x205F || n == 0x3000 || n == 0xFEFF
  }

  /** Every character of `s` is whitespace. */
  predicate AllWhitespace(s: string) {
    forall k :: 0 <= k < |s| ==> IsJsWhitespace(s[k])
  }

  /** Drops the leading whitespace, and only that. */
  function TrimStart(s: string): (r: string)
    ensures |r| <= |s| && r == s[|s| - |r|..]
    ensures AllWhitespace(s[..|s| - |r|])
    ensures r == [] || !IsJsWhitespace(r[0])
  {
    if s != [] && IsJsWhitespace(s[0]) then TrimStart(s[1..]) else s
  }

  /** Drops the trailing whitespace, and only that. */
  function TrimEnd(s: string): (r: string)
    ensures |r| <= |s| && r == s[..|r|]
    ensures AllWhitespace(s[|r|..])
    ensures r == [] || !IsJsWhitespace(r[|r| - 1])
  {
    if s != [] && IsJsWhitespace(s[|s| - 1]) then TrimEnd(s[..|s| - 1]) else s
  }

  /** `s.trim()`. */
  function Trim(s: string): string {
    TrimStart(TrimEnd(s))
  }

  /** What `trim` promises, independently of how it is computed: `t` is the
      slice `s[i..j]`, everything before `i` and from `j` on is whitespace,
      and `t` neither starts nor ends with whitespace. */
  predicate IsTrimmingOf(t: string, s: string, i: int, j: int) {
    && 0 <= i <= j <= |s|
    && t == s[i..j]
    && AllWhitespace(s[..i])
    && AllWhitespace(s[j..])
    && (t == [] || (!IsJsWhitespace(t[0]) && !IsJsWhitespace(t[|t| - 1])))
  }

  /** A string that neither starts nor ends with whitespace is its own trim. */
  lemma TrimOfTrimmed(s: string)
    requires s == [] || (!IsJsWhitespace(s[0]) && !IsJsWhitespace(s[|s| - 1]))
    ensures Trim(s) == s
  {
  }

  /** `trim` keeps its promise: it removes exactly the leading and the
      trailing whitespace. */
  lemma TrimIsSlice(s: string)
    ensures IsTrimmingOf(Trim(s), s, |TrimEnd(s)| - |Trim(s)|, |TrimEnd(s)|)
  {
    var e := TrimEnd(s);
    var t := TrimStart(e);
    assert Trim(s) == t;
    // What `TrimEnd` and `TrimStart` promise, one fact at a time: proved
    // together as the helper's precondition they make the solver wander.
    assert |e| <= |s|;
    assert e == s[..|e|];
    assert AllWhitespace(s[|e|..]);
    assert e == [] || !IsJsWhitespace(e[|e| - 1]);
    assert |t| <= |e|;
    assert t == e[|e| - |t|..];
    assert AllWhitespace(e[..|e| - |t|]);
    assert t == [] || !IsJsWhitespace(t[0]);
    TrimmedPrefixOfPrefix(s, e, t);
  }

  /** Removing leading whitespace from a prefix whose remainder is
      whitespace leaves a trimming of the whole string. */
  lemma TrimmedPrefixOfPrefix(s: string, e: string, t: string)
    requires |e| <= |s| && e == s[..|e|] && AllWhitespace(s[|e|..])
    requires e == [] || !IsJsWhitespace(e[|e| - 1])
    requires |t| <= |e| && t == e[|e| - |t|..] && AllWhitespace(e[..|e| - |t|])
    requires t == [] || !IsJsWhitespace(t[0])
    ensures IsTrimmingOf(t, s, |e| - |t|, |e|)
  {
    var i := |e| - |t|;
    assert s[..i] == e[..i];
    assert t == s[i..|e|];
    if t != [] {
      assert t[|t| - 1] == e[|e| - 1];
    }
  }

  /** Whatever meets the promise is the trim: a string has exactly one
      trimming. */
  lemma TrimmingIsUnique(s: string, t1: string, i1: int, j1: int, t2: string, i2: int, j2: int)
    requires IsTrimmingOf(t1, s, i1, j1) && IsTrimmingOf(t2, s, i2, j2)
    ensures t1 == t2
  {
    if t1 != [] {
      SameBounds(s, t1, i1, j1, t2, i2, j2);
    } else if t2 != [] {
      SameBounds(s, t2, i2, j2, t1, i1, j1);
    }
  }

  /** A non-empty trimming fixes the bounds of every other trimming. */
  lemma SameBounds(s: string, t1: string, i1: int, j1: int, t2: string, i2: int, j2: int)
    requires IsTrimmingOf(t1, s, i1, j1) && IsTrimmingOf(t2, s, i2, j2)
    requires t1 != []
    ensures i1 == i2 && j1 == j2
  {
    // The first kept character is not whitespace, so it lies in the other
    // trimming's slice, and so does the last one.
    assert s[i1] == t1[0] && s[j1 - 1] == t1[|t1| - 1];
    assert t2 != [];
    assert s[i2] == t2[0] && s[j2 - 1] == t2[|t2| - 1];
  }

  /** Trimming twice is trimming once. */
  lemma TrimIdempotent(s: string)
    ensures Trim(Trim(s)) == Trim(s)
  {
    TrimOfTrimmed(Trim(s));
  }

  /** `s.substring(start, end)`: both bounds are clamped to `[0, |s|]`, then
      swapped when the start exceeds the end. */
  function Substring(s: string, start: int, end: int): string {
    var a := if start < 0 then 0 else if start > |s| then |s| else start;
    var b := if end < 0 then 0 else if end > |s| then |s| else end;
    if a <= b then s[a..b] else s[b..a]
  }

  /** The swap makes the order of the bounds irrelevant. */
  lemma SubstringSymmetric(s: string, start: int, end: int)
    ensures Substring(s, start, end) == Substring(s, end, start)
  {
  }

  /** `s.startsWith(p)`. */
  predicate StartsWith(s: string, p: string) {
    |p| <= |s| && s[..|p|] == p
  }

  /** `cleanedText` as the route computes it from the generated text. */
  function StripCodeFence(text: string): string {
    var t := Trim(text);
    if StartsWith(t, "```json") then Trim(Substring(t, 7, |t| - 3))
    else if StartsWith(t, "```") then Trim(Substring(t, 3, |t| - 3))
    else t
  }

  /** A text that starts with the `json` fence starts with a bare fence. */
  lemma JsonFenceIsFence(t: string)
    requires StartsWith(t, "```json")
    ensures StartsWith(t, "```")
  {
    assert t[..3] == "```json"[..3];
  }

  /** The route's step-by-step reassignment of `cleanedText`: the
      reassigning form of the stripping whose specification is
      `StripCodeFence`. */
  method CleanResponseText(text: string) returns (cleanedText: string)
    ensures cleanedText == StripCodeFence(text)
  {
    cleanedText := Trim(text);
    ghost var t := cleanedText;
    assert t == Trim(text);
    if StartsWith(cleanedText, "```json") {
      cleanedText := Trim(Substring(cleanedText, 7, |cleanedText| - 3));
      assert cleanedText == Trim(Substring(t, 7, |t| - 3));
    } else if StartsWith(cleanedText, "```") {
      cleanedText := Trim(Substring(cleanedText, 3, |cleanedText| - 3));
      assert cleanedText == Trim(Substring(t, 3, |t| - 3));
    } else {
      assert cleanedText == t;
    }
  }

  /** After trimming, text that does not start with a fence is passed on. */
  lemma UnfencedPassesThrough(text: string)
    requires !StartsWith(Trim(text), "```")
    ensures StripCodeFence(text) == Trim(text)
  {
    if StartsWith(Trim(text), "```json") {
      JsonFenceIsFence(Trim(text));
    }
  }

  /** Stripping a `json` fence gives back the trimmed body. */
  lemma JsonFenceRoundTrip(body: string)
    ensures StripCodeFence("```json" + body + "```") == Trim(body)
  {
    var t := "```json" + body + "```";
    assert t[0] == '`' && t[|t| - 1] == '`';
    TrimOfTrimmed(t);
    assert Trim(t) == t;
    assert t[..7] == "```json";
    assert StartsWith(t, "```json");
    assert t[7..|t| - 3] == body;
    assert Substring(t, 7, |t| - 3) == body;
  }

  lemma BareFenceIsNotJsonFence(body: string)
    requires !StartsWith(body, "json")
    ensures !StartsWith("```" + body + "```", "```json")
  {
    var t := "```" + body + "```";
    if |body| >= 4 {
      var k :| 0 <= k < 4 && body[k] != "json"[k];
      assert t[3 + k] == body[k] && "```json"[3 + k] == "json"[k];
    } else {
      assert t[3 + |body|] == '`';
    }
  }

  /** Stripping a bare fence gives back the trimmed body, unless the body
      itself starts with `json` (then the first branch is taken). */
  lemma PlainFenceRoundTrip(body: string)
    requires !StartsWith(body, "json")
    ensures StripCodeFence("```" + body + "```") == Trim(body)
  {
    var t := "```" + body + "```";
    TrimOfTrimmed(t);
    assert StartsWith(t, "```");
    BareFenceIsNotJsonFence(body);
    assert t[3..|t| - 3] == body;
  }

  /** The last three characters are dropped without being checked to be
      backticks. */
  lemma ClosingFenceNotChecked(body: string, tail: string)
    requires |tail| == 3 && !IsJsWhitespace(tail[2])
    ensures StripCodeFence("```json" + body + tail) == Trim(body)
  {
    var t := "```json" + body + tail;
    TrimOfTrimmed(t);
    assert StartsWith(t, "```json");
    assert t[7..|t| - 3] == body;
  }

  /** Short fenced texts go through `substring`'s clamp and swap: a lone
      opening fence `json` loses all but its last three letters, and a lone
      bare fence comes back unchanged. */
  lemma ShortFencedTexts()
    ensures StripCodeFence("```json") == "son"
    ensures StripCodeFence("```") == "```"
  {
    TrimOfTrimmed("```json");
    TrimOfTrimmed("son");
    TrimOfTrimmed("```");
    assert "```json"[4..7] == "son";
  }

  /** The ids present in a list of details. */
  function IdsOf(details: seq<CropDetails>): set<string> {
    set d | d in details :: d.Id()
  }

  /** The last entry of the list carrying `id`, if any. */
  function LastWithId(details: seq<CropDetails>, id: string): (r: Option<CropDetails>)
    ensures r.Some? <==> id in IdsOf(details)
    ensures r.Some? ==> r.value in details && r.value.Id() == id
  {
    if details == [] then None
    else
      var last := details[|details| - 1];
      var rest := details[..|details| - 1];
      assert details == rest + [last];
      if last.Id() == id then Some(last) else LastWithId(rest, id)
  }

  /** `LastWithId` picks the entry that no later entry with the same id
      follows. */
  lemma {:induction false} LastWithIdIsLast(details: seq<CropDetails>, id: string, k: nat)
    requires k < |details| && details[k].Id() == id
    requires forall j :: k < j < |details| ==> details[j].Id() != id
    ensures LastWithId(details, id) == Some(details[k])
  {
    if k < |details| - 1 {
      LastWithIdIsLast(details[..|details| - 1], id, k);
    }
  }

  /** The `reduce` that builds `cropDetailsMap`: every entry is stored under
      its id, so a later entry overwrites an earlier one with the same id. */
  method BuildDetailsMap(details: seq<CropDetails>) returns (acc: map<string, CropDetails>)
    ensures acc.Keys == IdsOf(details)
    ensures forall id :: id in acc ==> Some(acc[id]) == LastWithId(details, id)
  {
    acc := map[];
    var i := 0;
    while i < |details|
      invariant 0 <= i <= |details|
      invariant acc.Keys == IdsOf(details[..i])
      invariant forall id :: id in acc ==> Some(acc[id]) == LastWithId(details[..i], id)
    {
      var detail := details[i];
      assert details[..i + 1] == details[..i] + [detail];
      assert details[..i + 1][..i] == details[..i];
      acc := acc[detail.Id() := detail];
      i := i + 1;
    }
    assert details[..i] == details;
  }

  /** A JSON value other than the details. */
  datatype Json =
    | JNull
    | JBool(b: bool)
    | JNumber(n: real)
    | JString(s: string)
    | JArray(items: seq<Json>)
    | JObject(fields: map<string, Json>)

  /** A top-level value of the document: the details array as generated,
      the details map as served, or any other JSON value. */
  datatype Value = Plain(json: Json) | DetailList(items: seq<CropDetails>) | DetailMap(byId: map<string, CropDetails>)

  const CropDetailsKey: string := "cropDetails"

  /** The value is an array the server can reduce into the details map: the
      generated details, or an empty JSON array. */
  predicate IsDetailArray(v: Value) {
    v.DetailList? || v == Plain(JArray([]))
  }

  /** The detail records of such an array. */
  function DetailItems(v: Value): seq<CropDetails>
    requires IsDetailArray(v)
  {
    if v.DetailList? then v.items else []
  }

  /** `{ ...rawData, cropDetails: cropDetailsMap }`. `None` stands for the
      TypeError the route's `catch` turns into a 500 response: a document
      whose `cropDetails` is missing or is not an array. */
  method ShapeAppData(rawData: map<string, Value>) returns (appData: Option<map<string, Value>>)
    ensures appData.None? <==> !(CropDetailsKey in rawData && IsDetailArray(rawData[CropDetailsKey]))
    ensures appData.Some? ==> appData.value.Keys == rawData.Keys
    ensures appData.Some? ==> forall k :: k in rawData && k != CropDetailsKey ==> appData.value[k] == rawData[k]
    ensures appData.Some? ==>
      && appData.value[CropDetailsKey].DetailMap?
      && appData.value[CropDetailsKey].byId.Keys == IdsOf(DetailItems(rawData[CropDetailsKey]))
      && forall id :: id in appData.value[CropDetailsKey].byId ==>
           Some(appData.value[CropDetailsKey].byId[id]) == LastWithId(DetailItems(rawData[CropDetailsKey]), id)
  {
    if CropDetailsKey in rawData && IsDetailArray(rawData[CropDetailsKey]) {
      var cropDetailsMap := BuildDetailsMap(DetailItems(rawData[CropDetailsKey]));
      appData := Some(rawData[CropDetailsKey := DetailMap(cropDetailsMap)]);
    } else {
      appData := None;
    }
  }
}
