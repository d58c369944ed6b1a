/** The language-model helpers (music_player_gradio/openrouter_utils.py):
    turning the model's reply to a music request into a genre list and a
    song count, and listing the available models fastest first. The HTTP
    calls are inputs: the two chat replies, and the model list the API
    returned. JSON decoding, with the `int()` of the count, is a parameter
    `decode`. */
module OpenRouter {
  import opened Text
  import opened Lists

  /** What chat_completion hands back: an error entry, a reply without
      `choices[0].message.content` (with the text of the exception that
      lookup raises), or the reply's content. */
  datatype ChatResponse = ErrorReply(error: string) | Malformed(detail: string) | Completion(content: string)

  /** The decoded JSON of the reply: the listed genres and the count, when
      there is one. */
  datatype Request = Request(genres: seq<string>, count: Option<int>)

  /** Decoding either succeeds or fails with the exception's text. */
  datatype Decoded = Parsed(request: Request) | DecodeError(message: string)

  /** What parse_genre_request returns: genres, song count, error. */
  datatype Outcome = Outcome(genres: seq<string>, count: int, error: Option<string>)

  /** The index of the first `c` in s. */
  function FirstOf(s: string, c: char): (r: Option<nat>)
    ensures r.Some? ==> r.value < |s| && s[r.value] == c && forall j :: 0 <= j < r.value ==> s[j] != c
    ensures r.None? ==> forall j :: 0 <= j < |s| ==> s[j] != c
  {
    if s == [] then None
    else if s[0] == c then Some(0)
    else
      var rest := FirstOf(s[1..], c);
      if rest.Some? then Some(rest.value + 1) else None
  }

  /** The index of the last `c` in s. */
  function LastOf(s: string, c: char): (r: Option<nat>)
    ensures r.Some? ==> r.value < |s| && s[r.value] == c && forall j :: r.value < j < |s| ==> s[j] != c
    ensures r.None? ==> forall j :: 0 <= j < |s| ==> s[j] != c
  {
    if s == [] then None
    else if s[|s| - 1] == c then Some(|s| - 1)
    else LastOf(s[..|s| - 1], c)
  }

  /** `re.search(r'({.*})', s, re.DOTALL)`: from the first '{' to the last
      '}' after it. There is a match exactly when some '{' comes before some
      '}'; it then starts at a '{' with none before it and ends at a '}'
      with none after it. */
  function ExtractBraces(s: string): (r: Option<string>)
    ensures r.Some? <==> exists i, j :: 0 <= i < j < |s| && s[i] == '{' && s[j] == '}'
    ensures r.Some? ==> |r.value| >= 2 && r.value[0] == '{' && r.value[|r.value| - 1] == '}'
  {
    var i := FirstOf(s, '{');
    var j := LastOf(s, '}');
    if i.Some? && j.Some? && i.value < j.value then Some(s[i.value..j.value + 1]) else None
  }

  /** The candidate runs from the first '{' to the last '}'. */
  lemma ExtractBracesAt(s: string, i: int, j: int)
    requires 0 <= i < j < |s| && s[i] == '{' && s[j] == '}'
    requires forall k :: 0 <= k < i ==> s[k] != '{'
    requires forall k :: j < k < |s| ==> s[k] != '}'
    ensures ExtractBraces(s) == Some(s[i..j + 1])
  {
  }

  /** `[g for g in genres if g in available]` */
  function Whitelist(genres: seq<string>, available: seq<string>): seq<string> {
    if genres == [] then []
    else Whitelist(genres[..|genres| - 1], available) + (if genres[|genres| - 1] in available then [genres[|genres| - 1]] else [])
  }

  /** The kept genres are exactly the requested ones that are available,
      no more of them than were requested. */
  lemma {:induction false} WhitelistMembers(genres: seq<string>, available: seq<string>)
    ensures forall g :: g in Whitelist(genres, available) <==> g in genres && g in available
    ensures |Whitelist(genres, available)| <= |genres|
  {
    if genres != [] {
      WhitelistMembers(genres[..|genres| - 1], available);
      assert genres == genres[..|genres| - 1] + [genres[|genres| - 1]];
    }
  }

  /** The filter keeps the requested order: filtering two parts one after
      the other is filtering the whole. */
  lemma {:induction false} WhitelistAppend(a: seq<string>, b: seq<string>, available: seq<string>)
    ensures Whitelist(a + b, available) == Whitelist(a, available) + Whitelist(b, available)
  {
    if b == [] {
      assert a + b == a;
    } else {
      WhitelistAppend(a, b[..|b| - 1], available);
      assert (a + b)[..|a + b| - 1] == a + b[..|b| - 1];
    }
  }

  /** A count that is not positive becomes 10, one above 100 becomes 100. */
  function ClampCount(n: int): (r: int)
    ensures 1 <= r <= 100
    ensures 1 <= n <= 100 ==> r == n
    ensures n > 100 ==> r == 100
  {
    if n <= 0 then 10 else if n > 100 then 100 else n
  }

  const NoMatch := "Could not extract valid genres and song count"
  const ParseFailed := "Failed to parse response: "
  const ProcessFailed := "Failed to process response: "

  /** The outcome of a failed request. */
  function Failure(error: string): Outcome {
    Outcome([], 10, Some(error))
  }

  /** parse_genre_request after both chat calls: `first` answers the
      user's query, `second` is asked to restate that answer as JSON and is
      only consulted when `first` has content. */
  function ParseGenreRequest(first: ChatResponse, second: ChatResponse, available: seq<string>,
                             decode: string -> Decoded): (o: Outcome)
    ensures o.error.Some? ==> o.genres == [] && o.count == 10
    ensures o.error.None? ==> 1 <= o.count <= 100 && forall g :: g in o.genres ==> g in available
    ensures first.ErrorReply? ==> o == Failure(first.error)
    ensures first.Completion? && second.ErrorReply? ==> o == Failure(second.error)
    ensures first.Completion? && second.Completion? && ExtractBraces(second.content).None? ==> o == Failure(NoMatch)
  {
    match first
    case ErrorReply(e) => Failure(e)
    case Malformed(d) => Failure(ProcessFailed + d)
    case Completion(_) =>
      match second
      case ErrorReply(e) => Failure(e)
      case Malformed(d) => Failure(ProcessFailed + d)
      case Completion(content) =>
        var candidate := ExtractBraces(content);
        if candidate.None? then Failure(NoMatch)
        else
          match decode(candidate.value)
          case DecodeError(m) => Failure(ParseFailed + m)
          case Parsed(req) =>
            WhitelistMembers(req.genres, available);
            Outcome(Whitelist(req.genres, available), ClampCount(if req.count.Some? then req.count.value else 10), None)
  }

  /** A successful parse returns the requested genres that are available,
      in the order requested, and the count clamped into 1..100, 10 when it
      is missing. */
  lemma ParseGenreRequestSuccess(first: ChatResponse, content: string, available: seq<string>,
                                 decode: string -> Decoded, req: Request)
    requires first.Completion? && ExtractBraces(content).Some?
    requires decode(ExtractBraces(content).value) == Parsed(req)
    ensures var o := ParseGenreRequest(first, Completion(content), available, decode);
      o.error.None? &&
      (forall g :: g in o.genres <==> g in req.genres && g in available) &&
      o.genres == Whitelist(req.genres, available) &&
      o.count == ClampCount(if req.count.Some? then req.count.value else 10)
  {
    WhitelistMembers(req.genres, available);
  }

  /** A model as the model list of the API describes it. Each latency
      field is present when the entry (or its `performance` or `benchmark`
      part) has one; `pricing` is the text of the pricing entry. */
  datatype ApiModel = ApiModel(id: string, name: Option<string>, description: Option<string>, pricing: string,
                               latency: Option<real>, performance: Option<real>, benchmark: Option<real>)

  /** A model as the settings page lists it. */
  datatype ModelInfo = ModelInfo(id: string, name: string, description: string, latency: Option<real>)

  /** The latency guessed from the model id when the API gives none: the
      first of the four size classes whose word occurs in the id, else 999. */
  function EstimateLatency(id: string): real {
    var low := Lower(id);
    if Contains(id, "3.5") || Contains(low, "instant") || Contains(low, "small") then 1.0
    else if Contains(low, "7b") || Contains(low, "8b") || Contains(low, "tiny") || Contains(low, "mini") then 2.0
    else if Contains(low, "13b") || Contains(low, "14b") || Contains(low, "medium") then 3.0
    else if Contains(low, "70b") || Contains(low, "llama-2") || Contains(low, "large") then 4.0
    else 999.0
  }

  /** The size classes as a table: the words of each class and its
      latency, fastest first. */
  const LatencyClasses: seq<(seq<string>, real)> := [
    (["3.5", "instant", "small"], 1.0),
    (["7b", "8b", "tiny", "mini"], 2.0),
    (["13b", "14b", "medium"], 3.0),
    (["70b", "llama-2", "large"], 4.0)
  ]

  /** Some word of the list occurs in `low`. */
  predicate AnyIn(low: string, words: seq<string>) {
    exists w :: w in words && Contains(low, w)
  }

  /** The latency of the first class with a word in `low`, 999 when none
      has. */
  function ClassLatency(low: string, classes: seq<(seq<string>, real)>): real {
    if classes == [] then 999.0
    else if AnyIn(low, classes[0].0) then classes[0].1
    else ClassLatency(low, classes[1..])
  }

  lemma AnyOfThree(low: string, a: string, b: string, c: string)
    ensures AnyIn(low, [a, b, c]) <==> Contains(low, a) || Contains(low, b) || Contains(low, c)
  {
    if Contains(low, a) {
      assert a in [a, b, c];
    } else if Contains(low, b) {
      assert b in [a, b, c];
    } else if Contains(low, c) {
      assert c in [a, b, c];
    }
  }

  lemma AnyOfFour(low: string, a: string, b: string, c: string, d: string)
    ensures AnyIn(low, [a, b, c, d]) <==> Contains(low, a) || Contains(low, b) || Contains(low, c) || Contains(low, d)
  {
    if Contains(low, a) {
      assert a in [a, b, c, d];
    } else if Contains(low, b) {
      assert b in [a, b, c, d];
    } else if Contains(low, c) {
      assert c in [a, b, c, d];
    } else if Contains(low, d) {
      assert d in [a, b, c, d];
    }
  }

  /** Lower-casing leaves every character that is no capital letter where
      it is, so a text without letters occurs in s exactly when it occurs
      in s lower-cased. */
  lemma {:induction false} ContainsLower(s: string, sub: string)
    requires forall k :: 0 <= k < |sub| ==> !('a' <= sub[k] <= 'z') && !('A' <= sub[k] <= 'Z')
    ensures Contains(s, sub) <==> Contains(Lower(s), sub)
    decreases |s|
  {
    if |sub| <= |s| {
      assert Lower(s)[..|sub|] == Lower(s[..|sub|]);
      if Lower(s)[..|sub|] == sub {
        forall k | 0 <= k < |sub| ensures s[k] == sub[k] {
          assert LowerChar(s[k]) == sub[k];
        }
        assert s[..|sub|] == sub;
      }
    }
    if s != [] {
      ContainsLower(s[1..], sub);
      assert Lower(s)[1..] == Lower(s[1..]);
    }
  }

  /** The if-chain of get_available_models picks the same latency as the
      table of size classes. */
  lemma EstimateIsFirstClass(id: string)
    ensures EstimateLatency(id) == ClassLatency(Lower(id), LatencyClasses)
  {
    var low := Lower(id);
    ContainsLower(id, "3.5");
    var c0 := LatencyClasses;
    var c1 := c0[1..];
    var c2 := c1[1..];
    var c3 := c2[1..];
    assert c0[0] == (["3.5", "instant", "small"], 1.0);
    assert c1[0] == (["7b", "8b", "tiny", "mini"], 2.0);
    assert c2[0] == (["13b", "14b", "medium"], 3.0);
    assert c3[0] == (["70b", "llama-2", "large"], 4.0);
    assert c3[1..] == [];
    AnyOfThree(low, "3.5", "instant", "small");
    AnyOfFour(low, "7b", "8b", "tiny", "mini");
    AnyOfThree(low, "13b", "14b", "medium");
    AnyOfThree(low, "70b", "llama-2", "large");
    assert ClassLatency(low, c3) == if AnyIn(low, c3[0].0) then 4.0 else 999.0;
    assert ClassLatency(low, c2) == if AnyIn(low, c2[0].0) then 3.0 else ClassLatency(low, c3);
    assert ClassLatency(low, c1) == if AnyIn(low, c1[0].0) then 2.0 else ClassLatency(low, c2);
    assert ClassLatency(low, c0) == if AnyIn(low, c0[0].0) then 1.0 else ClassLatency(low, c1);
  }

  /** The latency of an API model: its own latency field, else the one under
      `performance`, else the one under `benchmark`, else the estimate. */
  function LatencyOf(m: ApiModel): (r: real)
    ensures m.latency.None? && m.performance.None? && m.benchmark.None? ==>
      r in {1.0, 2.0, 3.0, 4.0, 999.0}
  {
    if m.latency.Some? then m.latency.value
    else if m.performance.Some? then m.performance.value
    else if m.benchmark.Some? then m.benchmark.value
    else EstimateLatency(m.id)
  }

  /** `'free' in (name + description + str(pricing)).lower()` */
  predicate IsFree(name: string, description: string, pricing: string) {
    Contains(Lower(name + description + pricing), "free")
  }

  /** The settings entry of an API model: the name defaults to the id and
      the description to empty. */
  function InfoOf(m: ApiModel): ModelInfo {
    ModelInfo(m.id, if m.name.Some? then m.name.value else m.id,
              if m.description.Some? then m.description.value else "", Some(LatencyOf(m)))
  }

  /** Whether the model passes the free-only filter. */
  predicate Listed(m: ApiModel, freeOnly: bool) {
    !freeOnly || IsFree(InfoOf(m).name, InfoOf(m).description, m.pricing)
  }

  /** The models the listing loop keeps, in API order. */
  function ListedModels(data: seq<ApiModel>, freeOnly: bool): seq<ModelInfo> {
    if data == [] then []
    else ListedModels(data[..|data| - 1], freeOnly) + (if Listed(data[|data| - 1], freeOnly) then [InfoOf(data[|data| - 1])] else [])
  }

  /** Without the filter every model is listed; with it, exactly the ones
      whose name, description or pricing mention "free". */
  lemma {:induction false} ListedMembers(data: seq<ApiModel>, freeOnly: bool)
    ensures !freeOnly ==> |ListedModels(data, freeOnly)| == |data|
    ensures forall m :: m in ListedModels(data, freeOnly) <==> exists d :: d in data && Listed(d, freeOnly) && m == InfoOf(d)
    ensures forall m :: m in ListedModels(data, freeOnly) ==> m.latency.Some?
  {
    if data != [] {
      var init := data[..|data| - 1];
      ListedMembers(init, freeOnly);
      assert data == init + [data[|data| - 1]];
    }
  }

  /** The model loop of get_available_models. */
  method ListModels(data: seq<ApiModel>, freeOnly: bool) returns (models: seq<ModelInfo>)
    ensures models == ListedModels(data, freeOnly)
  {
    models := [];
    var i := 0;
    while i < |data|
      invariant 0 <= i <= |data|
      invariant models == ListedModels(data[..i], freeOnly)
    {
      var m := data[i];
      ghost var next := data[..i + 1];
      assert next[..i] == data[..i] && next[i] == m;
      if !freeOnly || IsFree(InfoOf(m).name, InfoOf(m).description, m.pricing) {
        models := models + [InfoOf(m)];
      }
      i := i + 1;
      assert data[..i] == next;
    }
    assert data[..i] == data;
  }

  /** The sort key: `x.get("latency", 999)`. */
  function Key(m: ModelInfo): real {
    if m.latency.Some? then m.latency.value else 999.0
  }

  /** Python's sorted(): a stable sort by key. Each entry goes in after
      every entry whose key is not larger. */
  function Insert(sorted: seq<ModelInfo>, m: ModelInfo): seq<ModelInfo> {
    if sorted == [] then [m]
    else if Key(sorted[|sorted| - 1]) <= Key(m) then sorted + [m]
    else Insert(sorted[..|sorted| - 1], m) + [sorted[|sorted| - 1]]
  }

  function SortByLatency(models: seq<ModelInfo>): seq<ModelInfo> {
    if models == [] then [] else Insert(SortByLatency(models[..|models| - 1]), models[|models| - 1])
  }

  predicate SortedByKey(s: seq<ModelInfo>) {
    forall i, j :: 0 <= i < j < |s| ==> Key(s[i]) <= Key(s[j])
  }

  /** The entries of s whose key is k, in order. */
  function WithKey(s: seq<ModelInfo>, k: real): seq<ModelInfo> {
    if s == [] then [] else WithKey(s[..|s| - 1], k) + (if Key(s[|s| - 1]) == k then [s[|s| - 1]] else [])
  }

  lemma {:induction false} WithKeyAppend(a: seq<ModelInfo>, b: seq<ModelInfo>, k: real)
    ensures WithKey(a + b, k) == WithKey(a, k) + WithKey(b, k)
  {
    if b == [] {
      assert a + b == a;
    } else {
      WithKeyAppend(a, b[..|b| - 1], k);
      assert (a + b)[..|a + b| - 1] == a + b[..|b| - 1];
    }
  }

  lemma WithKeyOne(x: ModelInfo, k: real)
    ensures WithKey([x], k) == if Key(x) == k then [x] else []
  {
    assert [x][..0] == [];
  }

  /** Inserting adds the entry once. */
  lemma {:induction false} InsertPerm(s: seq<ModelInfo>, m: ModelInfo)
    ensures multiset(Insert(s, m)) == multiset(s) + multiset{m}
  {
    if s != [] && Key(s[|s| - 1]) > Key(m) {
      var init := s[..|s| - 1];
      InsertPerm(init, m);
      assert s == init + [s[|s| - 1]];
    }
  }

  /** Inserting into a sorted list keeps it sorted. */
  lemma {:induction false} InsertSorted(s: seq<ModelInfo>, m: ModelInfo)
    requires SortedByKey(s)
    ensures SortedByKey(Insert(s, m))
  {
    if s != [] && Key(s[|s| - 1]) > Key(m) {
      var init := s[..|s| - 1];
      var last := s[|s| - 1];
      InsertSorted(init, m);
      InsertPerm(init, m);
      var r := Insert(init, m);
      forall i | 0 <= i < |r| ensures Key(r[i]) <= Key(last) {
        assert r[i] in multiset(r);
        if r[i] != m {
          assert r[i] in multiset(init);
          var j :| 0 <= j < |init| && init[j] == r[i];
          assert s[j] == init[j];
        }
      }
    }
  }

  /** Inserting puts the entry after every entry with the same key. */
  lemma {:induction false} InsertStable(s: seq<ModelInfo>, m: ModelInfo, k: real)
    ensures WithKey(Insert(s, m), k) == WithKey(s, k) + WithKey([m], k)
  {
    WithKeyOne(m, k);
    if s == [] {
      assert WithKey([], k) == [];
    } else {
      var init := s[..|s| - 1];
      var last := s[|s| - 1];
      assert s == init + [last];
      WithKeyAppend(init, [last], k);
      WithKeyOne(last, k);
      if Key(last) <= Key(m) {
        WithKeyAppend(s, [m], k);
      } else {
        InsertStable(init, m, k);
        WithKeyAppend(Insert(init, m), [last], k);
      }
    }
  }

  /** sorted() returns the same entries, in latency order, and entries of
      equal latency in their original order. */
  lemma SortByLatencyProps(models: seq<ModelInfo>)
    ensures SortedByKey(SortByLatency(models))
    ensures multiset(SortByLatency(models)) == multiset(models)
    ensures forall k :: WithKey(SortByLatency(models), k) == WithKey(models, k)
  {
    SortSorted(models);
    SortPerm(models);
    forall k ensures WithKey(SortByLatency(models), k) == WithKey(models, k) {
      SortStable(models, k);
    }
  }

  lemma {:induction false} SortSorted(models: seq<ModelInfo>)
    ensures SortedByKey(SortByLatency(models))
  {
    if models != [] {
      SortSorted(models[..|models| - 1]);
      InsertSorted(SortByLatency(models[..|models| - 1]), models[|models| - 1]);
    }
  }

  lemma {:induction false} SortPerm(models: seq<ModelInfo>)
    ensures multiset(SortByLatency(models)) == multiset(models)
  {
    if models != [] {
      var init := models[..|models| - 1];
      SortPerm(init);
      SortPermStep(models);
    }
  }

  /** The step of SortPerm: sorting one more model adds it to the
      multiset. */
  lemma SortPermStep(models: seq<ModelInfo>)
    requires models != []
    requires multiset(SortByLatency(models[..|models| - 1])) == multiset(models[..|models| - 1])
    ensures multiset(SortByLatency(models)) == multiset(models)
  {
    var init := models[..|models| - 1];
    var last := models[|models| - 1];
    InsertPerm(SortByLatency(init), last);
    MultisetOfLast(models);
  }

  lemma {:induction false} SortStable(models: seq<ModelInfo>, k: real)
    ensures WithKey(SortByLatency(models), k) == WithKey(models, k)
  {
    if models != [] {
      var init := models[..|models| - 1];
      var last := models[|models| - 1];
      SortStable(init, k);
      InsertStable(SortByLatency(init), last, k);
      assert models == init + [last];
      WithKeyAppend(init, [last], k);
    }
  }

  /** The latency the fallback list guesses for an entry without one. */
  function FallbackLatency(id: string): (r: real)
    ensures r in {1.0, 2.0, 3.0}
  {
    if Contains(id, "3.5") || Contains(Lower(id), "instant") then 1.0
    else if Contains(Lower(id), "7b") || Contains(Lower(id), "8b") then 2.0
    else 3.0
  }

  /** An entry of the fallback list after the latency pass. */
  function Filled(m: ModelInfo): (r: ModelInfo)
    ensures r.id == m.id && r.name == m.name && r.description == m.description
    ensures r.latency.Some?
    ensures m.latency.Some? ==> r == m
  {
    if m.latency.None? then m.(latency := Some(FallbackLatency(m.id))) else m
  }

  function FillAll(models: seq<ModelInfo>): (r: seq<ModelInfo>)
    ensures |r| == |models|
    ensures forall i :: 0 <= i < |models| ==> r[i] == Filled(models[i])
  {
    seq(|models|, i requires 0 <= i < |models| => Filled(models[i]))
  }

  /** The latency pass changes nothing the second time. */
  lemma FillAllIdempotent(models: seq<ModelInfo>)
    ensures FillAll(FillAll(models)) == FillAll(models)
  {
  }

  /** What the model list request gave: it failed, or the API's list. */
  datatype Fetch = FetchFailed | Fetched(data: seq<ApiModel>)

  /** The module's list of free models, which the fallback fills in
      place. */
  class Catalog {
    var freeModels: seq<ModelInfo>

    constructor ()
      ensures freeModels == FreeModels
    {
      freeModels := FreeModels;
    }

    /** The latency pass over the fallback list: every entry without a
        latency gets the guessed one, the others stay. */
    method FillLatencies()
      modifies this
      ensures freeModels == FillAll(old(freeModels))
    {
      var i := 0;
      while i < |freeModels|
        invariant 0 <= i <= |freeModels| == |old(freeModels)|
        invariant forall j :: 0 <= j < i ==> freeModels[j] == Filled(old(freeModels)[j])
        invariant forall j :: i <= j < |freeModels| ==> freeModels[j] == old(freeModels)[j]
      {
        var model := freeModels[i];
        if model.latency.None? {
          var estimate := FallbackLatency(model.id);
          freeModels := freeModels[i := model.(latency := Some(estimate))];
        }
        i := i + 1;
      }
    }

    /** get_available_models. Without an API key: the fallback list, filled
        and sorted. When the request fails: the fallback list as it is.
        Otherwise: the listed models sorted by latency, or, when none is
        listed, the fallback list filled and sorted. */
    method AvailableModels(hasKey: bool, fetch: Fetch, freeOnly: bool) returns (models: seq<ModelInfo>)
      modifies this
      ensures !hasKey || (fetch.Fetched? && ListedModels(fetch.data, freeOnly) == []) ==>
        freeModels == FillAll(old(freeModels)) && models == SortByLatency(freeModels)
      ensures hasKey && fetch.FetchFailed? ==> freeModels == old(freeModels) && models == freeModels
      ensures hasKey && fetch.Fetched? && ListedModels(fetch.data, freeOnly) != [] ==>
        freeModels == old(freeModels) && models == SortByLatency(ListedModels(fetch.data, freeOnly))
    {
      if !hasKey {
        FillLatencies();
        return SortByLatency(freeModels);
      }
      if fetch.FetchFailed? {
        return freeModels;
      }
      var listed := ListModels(fetch.data, freeOnly);
      var sorted := SortByLatency(listed);
      SortByLatencyEmpty(listed);
      if sorted != [] {
        return sorted;
      }
      FillLatencies();
      models := SortByLatency(freeModels);
    }
  }

  /** The predefined free models, without latencies. */
  const FreeModels: seq<ModelInfo> := [
    ModelInfo("openai/gpt-3.5-turbo", "GPT-3.5 Turbo", "Fast and efficient model with good quality responses", None),
    ModelInfo("anthropic/claude-instant-1", "Claude Instant", "Quick responses with good quality", None),
    ModelInfo("google/gemini-pro", "Gemini Pro", "Google's capable general-purpose model", None),
    ModelInfo("meta-llama/llama-3-8b-instruct", "Llama 3 (8B)", "Meta's latest smaller but capable model", None),
    ModelInfo("mistralai/mistral-7b-instruct", "Mistral 7B", "Efficient open model with good performance", None),
    ModelInfo("cohere/command-r", "Cohere Command-R", "Specialized in task execution", None)
  ]

  /** An empty list sorts to empty, so the fallback is taken exactly when
      nothing was listed. */
  lemma {:induction false} SortByLatencyEmpty(models: seq<ModelInfo>)
    ensures SortByLatency(models) == [] <==> models == []
  {
    SortByLatencyProps(models);
    if models != [] {
      assert models[0] in multiset(models);
    }
  }
}
