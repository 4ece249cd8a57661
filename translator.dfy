/** The batch translation client (`GeminiTranslator`): it turns a batch of source texts
    into an indexed, tagged request, asks the remote model up to `maxRetries` times, and
    decodes the model's JSON array into one result slot per input.  The remote model is
    an oracle: a script of per-attempt outcomes. */
module Translator {
  import opened Wrappers
  import opened Seqs
  import opened PyStr

  /** A value as `json.loads` returns it.  Numbers are kept as exact reals. */
  datatype Json =
    | JNull
    | JBool(b: bool)
    | JNumber(n: real)
    | JString(s: string)
    | JArray(items: seq<Json>)
    | JObject(members: map<string, Json>)

  /** The translator's settings: attempts per batch, base back-off delay in seconds,
      and the number of entries sent per request. */
  datatype Config = Config(maxRetries: nat, retryDelay: nat, batchSize: nat)

  /** The values the translator is constructed with. */
  const Default: Config := Config(3, 5, 10)

  /** An entry handed to `translate_batch`: a bare string, or a dict such as
      `{'msgid': ..., 'msgid_plural': ...}`. */
  datatype BatchItem = Str(text: string) | Dict(fields: map<string, string>)

  /** One element of the request list embedded in the prompt. */
  datatype RequestItem =
    | SimpleItem(id: nat, text: string)
    | PluralItem(id: nat, msgid: string, msgidPlural: string)

  /** A decoded result slot: the dict `{'type': 'simple', 'text': ...}` or
      `{'type': 'plural', 'forms': ...}`. */
  datatype Translation = Simple(text: string) | Plural(forms: map<string, Json>)

  // ---------------------------------------------------------------------------
  // Request building

  /** Building the request item for this entry raises `KeyError`. */
  predicate MissingMsgid(e: BatchItem) {
    e.Dict? && "msgid" !in e.fields
  }

  /** The request item for entry `i`. */
  function RequestFor(e: BatchItem, i: nat): RequestItem
    requires !MissingMsgid(e)
  {
    if e.Dict? && "msgid_plural" in e.fields then
      PluralItem(i, e.fields["msgid"], e.fields["msgid_plural"])
    else
      SimpleItem(i, if e.Str? then e.text else e.fields["msgid"])
  }

  /** The request items for `entries[i..]`, or the index of the first entry whose
      request cannot be built. */
  function InputDataFrom(entries: seq<BatchItem>, i: nat): Result<seq<RequestItem>, nat>
    requires i <= |entries|
    decreases |entries| - i
  {
    if i == |entries| then Success([])
    else if MissingMsgid(entries[i]) then Failure(i)
    else match InputDataFrom(entries, i + 1)
      case Success(rest) => Success([RequestFor(entries[i], i)] + rest)
      case Failure(j) => Failure(j)
  }

  function InputData(entries: seq<BatchItem>): Result<seq<RequestItem>, nat> {
    InputDataFrom(entries, 0)
  }

  function Prepend(done: seq<RequestItem>, r: Result<seq<RequestItem>, nat>): Result<seq<RequestItem>, nat> {
    match r
    case Success(rest) => Success(done + rest)
    case Failure(j) => Failure(j)
  }

  lemma PrependAppend(done: seq<RequestItem>, item: RequestItem, r: Result<seq<RequestItem>, nat>)
    ensures Prepend(done, Prepend([item], r)) == Prepend(done + [item], r)
  {
    if r.Success? {
      assert done + ([item] + r.value) == (done + [item]) + r.value;
    }
  }

  /** Builds the request list of the prompt, appending one item per entry. */
  method CreateInputData(entries: seq<BatchItem>) returns (r: Result<seq<RequestItem>, nat>)
    ensures r == InputData(entries)
  {
    var input: seq<RequestItem> := [];
    var i := 0;
    assert InputDataFrom(entries, 0).Success? ==> [] + InputDataFrom(entries, 0).value == InputDataFrom(entries, 0).value;
    while i < |entries|
      invariant i <= |entries|
      invariant InputData(entries) == Prepend(input, InputDataFrom(entries, i))
    {
      var entry := entries[i];
      if entry.Dict? && "msgid_plural" in entry.fields {
        if "msgid" !in entry.fields {
          return Failure(i);
        }
        input := input + [PluralItem(i, entry.fields["msgid"], entry.fields["msgid_plural"])];
      } else {
        if entry.Dict? && "msgid" !in entry.fields {
          return Failure(i);
        }
        var text := if entry.Str? then entry.text else entry.fields["msgid"];
        input := input + [SimpleItem(i, text)];
      }
      assert InputDataFrom(entries, i) == Prepend([RequestFor(entries[i], i)], InputDataFrom(entries, i + 1));
      PrependAppend(input[..|input| - 1], RequestFor(entries[i], i), InputDataFrom(entries, i + 1));
      assert input[..|input| - 1] + [RequestFor(entries[i], i)] == input;
      i := i + 1;
    }
    assert input + [] == input;
    return Success(input);
  }

  /** The request carries ids 0..n-1 in input order; an item is plural exactly when its
      entry is a dict holding `msgid_plural`; a simple item's text is the string itself or
      the dict's `msgid`.  Building fails exactly at the first dict without `msgid`. */
  lemma {:induction false} InputDataShape(entries: seq<BatchItem>, i: nat)
    requires i <= |entries|
    ensures InputDataFrom(entries, i).Success? <==>
              forall j :: i <= j < |entries| ==> !MissingMsgid(entries[j])
    ensures InputDataFrom(entries, i).Failure? ==>
              var j := InputDataFrom(entries, i).error;
              i <= j < |entries| && MissingMsgid(entries[j])
              && forall k :: i <= k < j ==> !MissingMsgid(entries[k])
    ensures InputDataFrom(entries, i).Success? ==>
              var items := InputDataFrom(entries, i).value;
              |items| == |entries| - i
              && forall k :: 0 <= k < |items| ==>
                   var e := entries[i + k];
                   items[k].id == i + k
                   && (items[k].PluralItem? <==> e.Dict? && "msgid_plural" in e.fields)
                   && (items[k].PluralItem? ==>
                         items[k].msgid == e.fields["msgid"] && items[k].msgidPlural == e.fields["msgid_plural"])
                   && (items[k].SimpleItem? ==>
                         items[k].text == if e.Str? then e.text else e.fields["msgid"])
    decreases |entries| - i
  {
    if i < |entries| && !MissingMsgid(entries[i]) {
      InputDataShape(entries, i + 1);
      if InputDataFrom(entries, i + 1).Success? {
        var rest := InputDataFrom(entries, i + 1).value;
        var items := InputDataFrom(entries, i).value;
        assert items == [RequestFor(entries[i], i)] + rest;
        forall k | 0 <= k < |items|
          ensures items[k].id == i + k
        {
          if k > 0 { assert items[k] == rest[k - 1]; }
        }
      }
    }
  }

  /** A batch of bare strings always yields a request. */
  lemma StringsBuildRequest(entries: seq<BatchItem>)
    requires forall j :: 0 <= j < |entries| ==> entries[j].Str?
    ensures InputData(entries).Success?
  {
    InputDataShape(entries, 0);
  }

  // ---------------------------------------------------------------------------
  // Response decoding

  /** `d.get(key)`. */
  function Get(members: map<string, Json>, key: string): Option<Json> {
    if key in members then Some(members[key]) else None
  }

  /** The slot for one response object: a simple result when its type is `"simple"` and
      its translation a string, a plural result when its type is `"plural"` and its
      translation an object (whatever keys it has), otherwise no result. */
  function DecodeSlot(members: map<string, Json>): Option<Translation> {
    var kind := Get(members, "type");
    var translation := Get(members, "translation");
    if kind == Some(JString("simple")) && translation.Some? && translation.value.JString? then
      Some(Simple(translation.value.s))
    else if kind == Some(JString("plural")) && translation.Some? && translation.value.JObject? then
      Some(Plural(translation.value.members))
    else None
  }

  /** The slots for a response array, or `None` when some element is not an object
      (its `.get` raises and the whole attempt fails). */
  function DecodeAll(items: seq<Json>): Option<seq<Option<Translation>>> {
    if forall k :: 0 <= k < |items| ==> items[k].JObject? then
      Some(seq(|items|, k requires 0 <= k < |items| && items[k].JObject? => DecodeSlot(items[k].members)))
    else None
  }

  /** Decodes the response array element by element. */
  method DecodeResponse(items: seq<Json>) returns (r: Option<seq<Option<Translation>>>)
    ensures r == DecodeAll(items)
  {
    var results: seq<Option<Translation>> := [];
    var i := 0;
    while i < |items|
      invariant i <= |items|
      invariant forall k :: 0 <= k < i ==> items[k].JObject?
      invariant |results| == i
      invariant forall k :: 0 <= k < i ==> results[k] == DecodeSlot(items[k].members)
    {
      var item := items[i];
      if !item.JObject? {
        return None;
      }
      results := results + [DecodeSlot(item.members)];
      i := i + 1;
    }
    assert results == seq(|items|, k requires 0 <= k < |items| && items[k].JObject? => DecodeSlot(items[k].members));
    return Some(results);
  }

  /** The well-formed response object for a result, as the prompt asks for it. */
  function EncodeSlot(t: Translation): Json {
    match t
    case Simple(text) => JObject(map["type" := JString("simple"), "translation" := JString(text)])
    case Plural(forms) => JObject(map["type" := JString("plural"), "translation" := JObject(forms)])
  }

  function EncodeResponse(ts: seq<Translation>): Json {
    JArray(seq(|ts|, k requires 0 <= k < |ts| => EncodeSlot(ts[k])))
  }

  function SomeSlots(ts: seq<Translation>): (r: seq<Option<Translation>>)
    ensures |r| == |ts| && forall k :: 0 <= k < |ts| ==> r[k] == Some(ts[k])
  {
    seq(|ts|, k requires 0 <= k < |ts| => Some(ts[k]))
  }

  /** Decoding a well-formed response gives back every result, in order. */
  lemma DecodeEncode(ts: seq<Translation>)
    ensures DecodeAll(EncodeResponse(ts).items) == Some(SomeSlots(ts))
  {
    var items := EncodeResponse(ts).items;
    forall k | 0 <= k < |ts|
      ensures items[k].JObject? && DecodeSlot(items[k].members) == Some(ts[k])
    {
      var m := items[k].members;
      assert Get(m, "type") == Some(JString(if ts[k].Simple? then "simple" else "plural"));
    }
    assert DecodeAll(items).value == SomeSlots(ts);
  }

  // ---------------------------------------------------------------------------
  // Attempts against the remote model

  /** What one remote attempt produced: the decoded response, a JSON decode error, or any
      other exception raised by the call. */
  datatype Attempt = Reply(value: Json) | DecodeError | CallError

  /** The outcome of attempt `a`; attempts past the end of the script behave as a call
      that raised. */
  function AttemptAt(script: seq<Attempt>, a: nat): Attempt {
    if a < |script| then script[a] else CallError
  }

  /** How `translate_batch` judges one attempt for a batch of `n` entries. */
  datatype Verdict =
    | Accepted(slots: seq<Option<Translation>>)
    | ShapeMismatch   // not a list, or the wrong length
    | BadJson         // `json.JSONDecodeError`
    | Raised          // any other exception

  /** `len()` is defined for the value. */
  predicate Sized(v: Json) {
    v.JString? || v.JArray? || v.JObject?
  }

  function Judge(att: Attempt, n: nat): (v: Verdict)
    ensures v.Accepted? ==> |v.slots| == n
  {
    match att
    case CallError => Raised
    case DecodeError => BadJson
    case Reply(value) =>
      if !value.JArray? || |value.items| != n then
        // The warning logs len(response), which raises for numbers, booleans and null.
        if Sized(value) then ShapeMismatch else Raised
      else match DecodeAll(value.items)
        case None => Raised
        case Some(slots) => Accepted(slots)
  }

  /** The sleep after failed attempt `a` when another attempt follows. */
  function Backoff(cfg: Config, v: Verdict, a: nat): nat {
    if v.BadJson? then cfg.retryDelay else cfg.retryDelay * (a + 1)
  }

  /** What `translate_batch` returns, with the number of remote attempts it made and the
      sleeps it took; or the exception raised while building the prompt. */
  datatype BatchOutcome =
    | Returned(slots: seq<Option<Translation>>, attempts: nat, sleeps: seq<nat>)
    | PromptFailed(index: nat)

  /** The retry loop from attempt `a` on, for a batch of `n` entries. */
  function Retry(cfg: Config, n: nat, script: seq<Attempt>, a: nat): (r: BatchOutcome)
    ensures r.Returned? && |r.slots| == n
    ensures a <= cfg.maxRetries ==> r.attempts <= cfg.maxRetries
    ensures a < cfg.maxRetries ==> a < r.attempts && |r.sleeps| == r.attempts - a - 1
    ensures a >= cfg.maxRetries ==> r.attempts == a && r.sleeps == [] && r.slots == NoneSlots(n)
    decreases cfg.maxRetries - a
  {
    if a >= cfg.maxRetries then Returned(NoneSlots(n), a, [])
    else
      var v := Judge(AttemptAt(script, a), n);
      if v.Accepted? then Returned(v.slots, a + 1, [])
      else if a == cfg.maxRetries - 1 then Returned(NoneSlots(n), a + 1, [])
      else
        var rest := Retry(cfg, n, script, a + 1);
        Returned(rest.slots, rest.attempts, [Backoff(cfg, v, a)] + rest.sleeps)
  }

  /** `translate_batch(entries)` against the given script. */
  function TranslateBatchSpec(cfg: Config, entries: seq<BatchItem>, script: seq<Attempt>): BatchOutcome {
    if |entries| == 0 then Returned([], 0, [])
    else match InputData(entries)
      case Failure(i) => PromptFailed(i)
      case Success(_) => Retry(cfg, |entries|, script, 0)
  }

  /** One remote attempt and the checks applied to its response (a helper of the loop
      below, decoding the reply with `DecodeResponse`). */
  method RunAttempt(script: seq<Attempt>, a: nat, n: nat) returns (v: Verdict)
    ensures v == Judge(AttemptAt(script, a), n)
  {
    var att := AttemptAt(script, a);
    match att {
      case CallError => v := Raised;
      case DecodeError => v := BadJson;
      case Reply(value) =>
        if !value.JArray? || |value.items| != n {
          v := if Sized(value) then ShapeMismatch else Raised;
        } else {
          var decoded := DecodeResponse(value.items);
          v := if decoded.Some? then Accepted(decoded.value) else Raised;
        }
    }
  }

  function WithSleeps(done: seq<nat>, r: BatchOutcome): BatchOutcome
    requires r.Returned?
  {
    Returned(r.slots, r.attempts, done + r.sleeps)
  }

  /** One step of the retry loop. */
  lemma RetryUnfold(cfg: Config, n: nat, script: seq<Attempt>, a: nat)
    requires a < cfg.maxRetries
    ensures var v := Judge(AttemptAt(script, a), n);
            Retry(cfg, n, script, a) ==
              if v.Accepted? then Returned(v.slots, a + 1, [])
              else if a == cfg.maxRetries - 1 then Returned(NoneSlots(n), a + 1, [])
              else WithSleeps([Backoff(cfg, v, a)], Retry(cfg, n, script, a + 1))
  {
  }

  lemma WithSleepsAppend(done: seq<nat>, d: nat, r: BatchOutcome)
    requires r.Returned?
    ensures WithSleeps(done, WithSleeps([d], r)) == WithSleeps(done + [d], r)
  {
    assert done + ([d] + r.sleeps) == (done + [d]) + r.sleeps;
  }

  /** Translates a batch: builds the request, then makes up to `maxRetries` attempts,
      sleeping between failed attempts, and falls back to one `None` per entry. */
  method TranslateBatch(cfg: Config, entries: seq<BatchItem>, script: seq<Attempt>) returns (out: BatchOutcome)
    ensures out == TranslateBatchSpec(cfg, entries, script)
  {
    if |entries| == 0 {
      return Returned([], 0, []);
    }
    var request := CreateInputData(entries);
    if request.Failure? {
      return PromptFailed(request.error);
    }
    var n := |entries|;
    var attempt: nat := 0;
    var sleeps: seq<nat> := [];
    while attempt < cfg.maxRetries
      invariant Retry(cfg, n, script, 0) == WithSleeps(sleeps, Retry(cfg, n, script, attempt))
      decreases cfg.maxRetries - attempt
    {
      var verdict := RunAttempt(script, attempt, n);
      RetryUnfold(cfg, n, script, attempt);
      if verdict.Accepted? {
        return Returned(verdict.slots, attempt + 1, sleeps);
      }
      if verdict.ShapeMismatch? {
        if attempt < cfg.maxRetries - 1 {
          WithSleepsAppend(sleeps, Backoff(cfg, verdict, attempt), Retry(cfg, n, script, attempt + 1));
          sleeps := sleeps + [cfg.retryDelay * (attempt + 1)];
          attempt := attempt + 1;
          continue;
        }
        return Returned(NoneSlots(n), attempt + 1, sleeps);
      }
      if attempt == cfg.maxRetries - 1 {
        return Returned(NoneSlots(n), attempt + 1, sleeps);
      }
      WithSleepsAppend(sleeps, Backoff(cfg, verdict, attempt), Retry(cfg, n, script, attempt + 1));
      sleeps := sleeps + [if verdict.BadJson? then cfg.retryDelay else cfg.retryDelay * (attempt + 1)];
      attempt := attempt + 1;
    }
    assert sleeps + [] == sleeps;
    return Returned(NoneSlots(n), attempt, sleeps);
  }

  // ---------------------------------------------------------------------------
  // Properties of translate_batch

  /** An empty batch returns no slots without any remote attempt; every return path yields
      exactly one slot per entry, with at most `maxRetries` remote attempts, and at least
      one when there is something to send. */
  lemma BatchShape(cfg: Config, entries: seq<BatchItem>, script: seq<Attempt>)
    ensures |entries| == 0 ==> TranslateBatchSpec(cfg, entries, script) == Returned([], 0, [])
    ensures var out := TranslateBatchSpec(cfg, entries, script);
            out.Returned? ==>
              |out.slots| == |entries| && out.attempts <= cfg.maxRetries
              && (|entries| > 0 && cfg.maxRetries > 0 ==> out.attempts >= 1)
  {
  }

  /** A batch of strings never raises. */
  lemma StringBatchReturns(cfg: Config, entries: seq<BatchItem>, script: seq<Attempt>)
    requires forall j :: 0 <= j < |entries| ==> entries[j].Str?
    ensures TranslateBatchSpec(cfg, entries, script).Returned?
  {
    StringsBuildRequest(entries);
  }

  /** The `j`-th attempt failed and the sleep after it lasted `d`. */
  predicate FailedThenSlept(cfg: Config, n: nat, script: seq<Attempt>, j: nat, d: nat) {
    var v := Judge(AttemptAt(script, j), n);
    !v.Accepted? && d == Backoff(cfg, v, j)
  }

  /** Each sleep follows a failed attempt and lasts `retryDelay * (a + 1)`, or `retryDelay`
      after a decode error; nothing is slept after the final attempt. */
  lemma {:induction false} RetrySchedule(cfg: Config, n: nat, script: seq<Attempt>, a: nat)
    ensures forall j :: 0 <= j < |Retry(cfg, n, script, a).sleeps| ==>
              FailedThenSlept(cfg, n, script, a + j, Retry(cfg, n, script, a).sleeps[j])
    decreases cfg.maxRetries - a
  {
    if a < cfg.maxRetries {
      var v := Judge(AttemptAt(script, a), n);
      if !v.Accepted? && a != cfg.maxRetries - 1 {
        RetrySchedule(cfg, n, script, a + 1);
        var r := Retry(cfg, n, script, a);
        var rest := Retry(cfg, n, script, a + 1);
        assert r.sleeps == [Backoff(cfg, v, a)] + rest.sleeps;
        forall j | 0 <= j < |r.sleeps|
          ensures FailedThenSlept(cfg, n, script, a + j, r.sleeps[j])
        {
          if j > 0 {
            assert FailedThenSlept(cfg, n, script, (a + 1) + (j - 1), rest.sleeps[j - 1]);
            assert (a + 1) + (j - 1) == a + j;
          }
        }
      }
    }
  }

  /** When no attempt is accepted the batch resolves to all `None` after exactly
      `maxRetries` attempts. */
  lemma {:induction false} RetryExhausted(cfg: Config, n: nat, script: seq<Attempt>, a: nat)
    requires a <= cfg.maxRetries
    requires forall j :: a <= j < cfg.maxRetries ==> !Judge(AttemptAt(script, j), n).Accepted?
    ensures Retry(cfg, n, script, a).slots == NoneSlots(n)
    ensures Retry(cfg, n, script, a).attempts == cfg.maxRetries
    decreases cfg.maxRetries - a
  {
    if a < cfg.maxRetries - 1 {
      RetryExhausted(cfg, n, script, a + 1);
    }
  }

  /** The first accepted attempt decides the result. */
  lemma {:induction false} RetryFirstAccepted(cfg: Config, n: nat, script: seq<Attempt>, a: nat, b: nat)
    requires a <= b < cfg.maxRetries
    requires forall j :: a <= j < b ==> !Judge(AttemptAt(script, j), n).Accepted?
    requires Judge(AttemptAt(script, b), n).Accepted?
    ensures Retry(cfg, n, script, a).slots == Judge(AttemptAt(script, b), n).slots
    ensures Retry(cfg, n, script, a).attempts == b + 1
    decreases b - a
  {
    if a < b {
      RetryFirstAccepted(cfg, n, script, a + 1, b);
    }
  }

  /** Sending any batch and getting back the well-formed response on the first attempt
      yields every result in order, after one attempt, without sleeping. */
  lemma BatchRoundTrip(cfg: Config, entries: seq<BatchItem>, ts: seq<Translation>, script: seq<Attempt>)
    requires cfg.maxRetries > 0 && |entries| > 0 && |ts| == |entries|
    requires forall j :: 0 <= j < |entries| ==> !MissingMsgid(entries[j])
    requires |script| > 0 && script[0] == Reply(EncodeResponse(ts))
    ensures TranslateBatchSpec(cfg, entries, script) == Returned(SomeSlots(ts), 1, [])
  {
    InputDataShape(entries, 0);
    DecodeEncode(ts);
  }

  /** Three shape mismatches under the default settings: sleeps of 5 and 10 seconds,
      then one `None` per entry. */
  lemma DefaultScheduleOnMismatch(entries: seq<BatchItem>)
    requires |entries| == 2 && forall j :: 0 <= j < 2 ==> entries[j].Str?
    ensures var bad := Reply(JArray([]));
            TranslateBatchSpec(Default, entries, [bad, bad, bad]) == Returned([None, None], 3, [5, 10])
  {
    StringsBuildRequest(entries);
    var bad := Reply(JArray([]));
    var script := [bad, bad, bad];
    assert Judge(AttemptAt(script, 0), 2) == ShapeMismatch;
    assert Judge(AttemptAt(script, 1), 2) == ShapeMismatch;
    assert NoneSlots<Translation>(2) == [None, None];
    assert Retry(Default, 2, script, 2) == Returned([None, None], 3, []);
    assert Retry(Default, 2, script, 1) == Returned([None, None], 3, [10]);
  }

  /** Decoding works element by element: when every element is an object, slot `k` is the
      decoding of element `k` alone, so replacing one element with another object changes
      only that element's slot. */
  lemma DecodePointwise(items: seq<Json>, k: nat, other: map<string, Json>)
    requires k < |items| && forall j :: 0 <= j < |items| ==> items[j].JObject?
    ensures DecodeAll(items).Some? && |DecodeAll(items).value| == |items|
    ensures forall j :: 0 <= j < |items| ==> DecodeAll(items).value[j] == DecodeSlot(items[j].members)
    ensures DecodeAll(items[k := JObject(other)]) == Some(DecodeAll(items).value[k := DecodeSlot(other)])
  {
    var changed := items[k := JObject(other)];
    assert forall j :: 0 <= j < |changed| ==> changed[j].JObject?;
    assert DecodeAll(changed).value == DecodeAll(items).value[k := DecodeSlot(other)];
  }

  /** One malformed element costs only its own slot. */
  lemma MalformedElementIsolated(a: string, forms: map<string, Json>)
    ensures var reply := JArray([EncodeSlot(Simple(a)),
                                 JObject(map["type" := JString("simple"), "translation" := JNull]),
                                 EncodeSlot(Plural(forms))]);
            Judge(Reply(reply), 3) == Accepted([Some(Simple(a)), None, Some(Plural(forms))])
  {
    DecodeEncode([Simple(a), Simple(a), Plural(forms)]);
    var bad := map["type" := JString("simple"), "translation" := JNull];
    assert Get(bad, "translation") == Some(JNull);
  }

  // ---------------------------------------------------------------------------
  // Single-entry wrappers

  /** `translate(text)`: blank text is returned as it is; otherwise the text of a simple
      result, or `None`. */
  function Translate(cfg: Config, text: string, script: seq<Attempt>): Option<string> {
    if Blank(text) then Some(text)
    else
      StringBatchReturns(cfg, [Str(text)], script);
      var slot := TranslateBatchSpec(cfg, [Str(text)], script).slots[0];
      if slot.Some? && slot.value.Simple? then Some(slot.value.text) else None
  }

  /** The request `translate_plural` sends. */
  function PluralRequest(msgid: string, msgidPlural: string): BatchItem {
    Dict(map["msgid" := msgid, "msgid_plural" := msgidPlural])
  }

  /** `translate_plural(msgid, msgid_plural)`: `None` for a blank source, otherwise the
      forms of a plural result, or `None`. */
  function TranslatePlural(cfg: Config, msgid: string, msgidPlural: string, script: seq<Attempt>): Option<map<string, Json>> {
    if Blank(msgid) || Blank(msgidPlural) then None
    else
      PluralRequestBuilds(msgid, msgidPlural);
      var slot := TranslateBatchSpec(cfg, [PluralRequest(msgid, msgidPlural)], script).slots[0];
      if slot.Some? && slot.value.Plural? then Some(slot.value.forms) else None
  }

  /** The plural request is a single plural item with id 0. */
  lemma PluralRequestBuilds(msgid: string, msgidPlural: string)
    ensures InputData([PluralRequest(msgid, msgidPlural)]) == Success([PluralItem(0, msgid, msgidPlural)])
  {
    var entries := [PluralRequest(msgid, msgidPlural)];
    assert "msgid" in entries[0].fields && "msgid_plural" in entries[0].fields;
    assert InputDataFrom(entries, 1) == Success([]);
    assert RequestFor(entries[0], 0) == PluralItem(0, msgid, msgidPlural);
    assert InputDataFrom(entries, 0) == Success([RequestFor(entries[0], 0)] + []);
    assert [RequestFor(entries[0], 0)] + [] == [PluralItem(0, msgid, msgidPlural)];
    assert InputData(entries) == Success([PluralItem(0, msgid, msgidPlural)]);
  }

  /** Blank text never reaches the remote model: the answer does not depend on it. */
  lemma TranslateBlank(cfg: Config, text: string, s1: seq<Attempt>, s2: seq<Attempt>)
    requires Blank(text)
    ensures Translate(cfg, text, s1) == Translate(cfg, text, s2) == Some(text)
  {
  }

  /** A well-formed simple reply on the first attempt comes back as the translation;
      a plural reply to the same request gives `None`. */
  lemma TranslateRoundTrip(cfg: Config, text: string, t: string, forms: map<string, Json>)
    requires cfg.maxRetries > 0 && !Blank(text)
    ensures Translate(cfg, text, [Reply(EncodeResponse([Simple(t)]))]) == Some(t)
    ensures Translate(cfg, text, [Reply(EncodeResponse([Plural(forms)]))]) == None
  {
    BatchRoundTrip(cfg, [Str(text)], [Simple(t)], [Reply(EncodeResponse([Simple(t)]))]);
    BatchRoundTrip(cfg, [Str(text)], [Plural(forms)], [Reply(EncodeResponse([Plural(forms)]))]);
  }

  /** A blank source gives `None` whatever the model says; a well-formed plural reply
      gives its forms, and a simple reply `None`. */
  lemma TranslatePluralRoundTrip(cfg: Config, msgid: string, msgidPlural: string,
                                 forms: map<string, Json>, t: string, script: seq<Attempt>)
    ensures Blank(msgid) || Blank(msgidPlural) ==> TranslatePlural(cfg, msgid, msgidPlural, script) == None
    ensures !Blank(msgid) && !Blank(msgidPlural) && cfg.maxRetries > 0 ==>
              TranslatePlural(cfg, msgid, msgidPlural, [Reply(EncodeResponse([Plural(forms)]))]) == Some(forms)
              && TranslatePlural(cfg, msgid, msgidPlural, [Reply(EncodeResponse([Simple(t)]))]) == None
  {
    if !Blank(msgid) && !Blank(msgidPlural) && cfg.maxRetries > 0 {
      var req := [PluralRequest(msgid, msgidPlural)];
      PluralRequestBuilds(msgid, msgidPlural);
      BatchRoundTrip(cfg, req, [Plural(forms)], [Reply(EncodeResponse([Plural(forms)]))]);
      BatchRoundTrip(cfg, req, [Simple(t)], [Reply(EncodeResponse([Simple(t)]))]);
    }
  }
}
