/** The batch driver of `TranslationManager`: `translate_entries` caps the pending list,
    drops entries with a blank `msgid` (capturing baselines on the rest), sends the rest
    in consecutive batches of `batchSize` and writes back only the slots that hold a
    result; and the "translate" menu step that reads the cap from the user. */
module Manager {
  import opened Wrappers
  import opened Seqs
  import opened PyStr
  import opened Catalog
  import opened Translator

  /** The stop index of the Python slice `s[:stop]` on a list of length `n`. */
  function SliceStop(n: nat, stop: int): (k: nat)
    ensures k <= n
  {
    if stop >= 0 then (if stop < n then stop else n)
    else if n + stop > 0 then n + stop else 0
  }

  /** How many leading entries `translate_entries` considers: a cap of `None` or 0 means
      all of them, any other cap slices the list (a negative one drops entries from the end). */
  function Limit(n: nat, cap: Option<int>): (k: nat)
    ensures k <= n
    ensures cap.None? || cap == Some(0) ==> k == n
    ensures cap.Some? && cap.value > 0 ==> k == if cap.value < n then cap.value else n
  {
    if cap.None? || cap.value == 0 then n else SliceStop(n, cap.value)
  }

  /** Which of the considered entries are sent: those whose `msgid` is not blank. */
  function DispatchFlags(vals: seq<EntryValue>, cap: Option<int>): (flags: seq<bool>)
    ensures |flags| == Limit(|vals|, cap)
    ensures forall i :: 0 <= i < |flags| ==> flags[i] == !Blank(vals[i].msgid)
  {
    seq(Limit(|vals|, cap), i requires 0 <= i < Limit(|vals|, cap) => !Blank(vals[i].msgid))
  }

  function MsgidsOf(vals: seq<EntryValue>, n: nat): (r: seq<string>)
    requires n <= |vals|
    ensures |r| == n && forall i :: 0 <= i < n ==> r[i] == vals[i].msgid
  {
    seq(n, i requires 0 <= i < n => vals[i].msgid)
  }

  /** The source texts sent to the translator, in order. */
  function DispatchedTexts(vals: seq<EntryValue>, cap: Option<int>): seq<string> {
    Select(MsgidsOf(vals, Limit(|vals|, cap)), DispatchFlags(vals, cap))
  }

  function AsItems(texts: seq<string>): (items: seq<BatchItem>)
    ensures |items| == |texts| && forall i :: 0 <= i < |texts| ==> items[i] == Str(texts[i])
  {
    seq(|texts|, i requires 0 <= i < |texts| => Str(texts[i]))
  }

  /** The script the remote model follows for batch `k`. */
  function OracleFor(oracles: seq<seq<Attempt>>, k: nat): seq<Attempt> {
    if k < |oracles| then oracles[k] else []
  }

  /** The slots a batch contributes: what `translate_batch` returned, or no result at all
      when it raised (the driver logs the error and moves on). */
  function BatchSlots(cfg: Config, texts: seq<string>, script: seq<Attempt>): (r: seq<Option<Translation>>)
    ensures |r| == |texts|
  {
    BatchShape(cfg, AsItems(texts), script);
    match TranslateBatchSpec(cfg, AsItems(texts), script)
    case Returned(slots, _, _) => slots
    case PromptFailed(_) => NoneSlots(|texts|)
  }

  /** The slots of batches `k`, `k + 1`, ..., concatenated. */
  function RunSlots(cfg: Config, batches: seq<seq<string>>, oracles: seq<seq<Attempt>>, k: nat): (r: seq<Option<Translation>>)
  {
    if |batches| == 0 then []
    else BatchSlots(cfg, batches[0], OracleFor(oracles, k)) + RunSlots(cfg, batches[1..], oracles, k + 1)
  }

  lemma {:induction false} RunSlotsLength(cfg: Config, batches: seq<seq<string>>, oracles: seq<seq<Attempt>>, k: nat)
    ensures |RunSlots(cfg, batches, oracles, k)| == |Flatten(batches)|
    decreases |batches|
  {
    if |batches| > 0 {
      RunSlotsLength(cfg, batches[1..], oracles, k + 1);
    }
  }

  /** One slot per dispatched entry, in dispatch order. */
  function Dispatched(vals: seq<EntryValue>, cap: Option<int>, cfg: Config, oracles: seq<seq<Attempt>>): seq<Option<Translation>>
    requires cfg.batchSize > 0
  {
    RunSlots(cfg, Batches(DispatchedTexts(vals, cap), cfg.batchSize), oracles, 0)
  }

  /** Writing a slot back: `msgstr` becomes the stored result only when there is one. */
  function Apply(v: EntryValue, slot: Option<Translation>): EntryValue {
    if slot.Some? then v.(msgstr := Stored(slot.value)) else v
  }

  /** Entry `m` once the first `|done|` dispatched entries have had their slots applied:
      a dispatched entry has its baseline captured and, if its slot is already known, the
      slot applied; every other entry is as it was. */
  function StateAfter(vals: seq<EntryValue>, flags: seq<bool>, done: seq<Option<Translation>>, m: nat): EntryValue
    requires |flags| <= |vals| && m < |vals|
  {
    if m < |flags| && flags[m] then
      var r := CountTrue(flags[..m]);
      if r < |done| then Apply(Capture(vals[m]), done[r]) else Capture(vals[m])
    else vals[m]
  }

  /** The entries after `translate_entries`, and the count it returns. */
  datatype Run = Run(entries: seq<EntryValue>, count: nat)

  function TranslateEntriesSpec(vals: seq<EntryValue>, cap: Option<int>, cfg: Config, oracles: seq<seq<Attempt>>): (run: Run)
    requires cfg.batchSize > 0
    ensures |run.entries| == |vals|
  {
    var flags := DispatchFlags(vals, cap);
    var slots := Dispatched(vals, cap, cfg, oracles);
    Run(seq(|vals|, m requires 0 <= m < |vals| => StateAfter(vals, flags, slots, m)), CountSome(slots))
  }

  // ---------------------------------------------------------------------------
  // Proof helpers for the driver loop

  lemma FlattenBatches(cfg: Config, texts: seq<string>, oracles: seq<seq<Attempt>>, k: nat)
    requires cfg.batchSize > 0
    ensures |RunSlots(cfg, Batches(texts, cfg.batchSize), oracles, k)| == |texts|
  {
    BatchesCover(texts, cfg.batchSize);
    RunSlotsLength(cfg, Batches(texts, cfg.batchSize), oracles, k);
  }

  /** A dispatched entry's texts and positions. */
  lemma DispatchFacts(vals: seq<EntryValue>, cap: Option<int>)
    ensures var flags := DispatchFlags(vals, cap);
            var ps := Positions(flags);
            var texts := DispatchedTexts(vals, cap);
            |texts| == |ps| == CountTrue(flags)
            && (forall p :: 0 <= p < |ps| ==> ps[p] < |flags| && flags[ps[p]] && texts[p] == vals[ps[p]].msgid)
  {
    var flags := DispatchFlags(vals, cap);
    SelectAtPositions(MsgidsOf(vals, Limit(|vals|, cap)), flags);
    PositionsExact(flags);
  }

  /** Entry `m` is sent and its rank among the sent entries lies in `[lo, hi)`. */
  predicate InRange(flags: seq<bool>, m: nat, lo: nat, hi: nat) {
    m < |flags| && flags[m] && lo <= CountTrue(flags[..m]) < hi
  }

  /** Applying the slots `more` after `done` changes exactly the entries whose rank falls
      in the next `|more|` places, each by its own slot. */
  lemma StateExtend(vals: seq<EntryValue>, flags: seq<bool>, done: seq<Option<Translation>>,
                    more: seq<Option<Translation>>, m: nat)
    requires |flags| <= |vals| && m < |vals|
    ensures StateAfter(vals, flags, done + more, m) ==
              if InRange(flags, m, |done|, |done| + |more|)
              then Apply(StateAfter(vals, flags, done, m), more[CountTrue(flags[..m]) - |done|])
              else StateAfter(vals, flags, done, m)
  {
    if InRange(flags, m, |done|, |done| + |more|) {
      var r := CountTrue(flags[..m]);
      assert (done + more)[r] == more[r - |done|];
    } else if m < |flags| && flags[m] && CountTrue(flags[..m]) < |done| {
      var r := CountTrue(flags[..m]);
      assert (done + more)[r] == done[r];
    }
  }

  /** Entry `m` of `pre` once the slots `slots`, which follow the first `lo` ones, are applied. */
  function Stepped(pre: seq<EntryValue>, flags: seq<bool>, lo: nat, slots: seq<Option<Translation>>, m: nat): EntryValue
    requires m < |pre|
  {
    if InRange(flags, m, lo, lo + |slots|) then Apply(pre[m], slots[CountTrue(flags[..m]) - lo]) else pre[m]
  }

  /** Applying one batch's slots to entries in the states after `done`. */
  lemma BatchStep(vals: seq<EntryValue>, flags: seq<bool>, done: seq<Option<Translation>>,
                  slots: seq<Option<Translation>>, pre: seq<EntryValue>, post: seq<EntryValue>)
    requires |flags| <= |vals| == |pre| == |post|
    requires forall m :: 0 <= m < |pre| ==> pre[m] == StateAfter(vals, flags, done, m)
    requires forall m :: 0 <= m < |post| ==> post[m] == Stepped(pre, flags, |done|, slots, m)
    ensures forall m :: 0 <= m < |post| ==> post[m] == StateAfter(vals, flags, done + slots, m)
  {
    forall m | 0 <= m < |post|
      ensures post[m] == StateAfter(vals, flags, done + slots, m)
    {
      StateExtend(vals, flags, done, slots, m);
    }
  }

  /** The entries of a batch are exactly those whose rank falls in the batch's range. */
  lemma BatchMembers(entries: seq<CatalogEntry>, flags: seq<bool>, process: seq<CatalogEntry>, lo: nat, hi: nat, m: nat)
    requires Distinct(entries) && |flags| <= |entries| && m < |entries|
    requires |process| == |Positions(flags)| && lo <= hi <= |process|
    requires forall p :: 0 <= p < |process| ==> process[p] == entries[Positions(flags)[p]]
    ensures InRange(flags, m, lo, hi) ==> process[lo..hi][CountTrue(flags[..m]) - lo] == entries[m]
    ensures !InRange(flags, m, lo, hi) ==> entries[m] !in process[lo..hi]
  {
    PositionsExact(flags);
    if InRange(flags, m, lo, hi) {
      PositionsRank(flags, m);
      assert process[lo..hi][CountTrue(flags[..m]) - lo] == process[CountTrue(flags[..m])];
    } else {
      forall j | 0 <= j < hi - lo
        ensures process[lo..hi][j] != entries[m]
      {
        var p := Positions(flags)[lo + j];
        RankOfPosition(flags, lo + j);
        assert p != m;
        assert process[lo..hi][j] == entries[p];
      }
    }
  }

  lemma NoneSlotsAreNone<T>(n: nat)
    ensures forall i :: 0 <= i < n ==> NoneSlots<T>(n)[i] == None
  {
    if n > 0 {
      NoneSlotsAreNone<T>(n - 1);
    }
  }

  lemma {:induction false} CountSomeConcat<T>(s: seq<Option<T>>, t: seq<Option<T>>)
    ensures CountSome(s + t) == CountSome(s) + CountSome(t)
  {
    if |t| > 0 {
      var u := t[..|t| - 1];
      CountSomeConcat(s, u);
      assert (s + t)[..|s + t| - 1] == s + u;
    } else {
      assert s + t == s;
    }
  }

  lemma ConcatAssoc<T>(a: seq<T>, b: seq<T>, c: seq<T>)
    ensures (a + b) + c == a + (b + c)
  {
  }

  /** The first batch of what remains, and the rest. */
  lemma RunSlotsHead(cfg: Config, texts: seq<string>, start: nat, end: nat, oracles: seq<seq<Attempt>>, k: nat)
    requires cfg.batchSize > 0 && start < |texts|
    requires end == if start + cfg.batchSize < |texts| then start + cfg.batchSize else |texts|
    ensures RunSlots(cfg, Batches(texts[start..], cfg.batchSize), oracles, k)
            == BatchSlots(cfg, texts[start..end], OracleFor(oracles, k))
               + RunSlots(cfg, Batches(texts[end..], cfg.batchSize), oracles, k + 1)
  {
    var t := texts[start..];
    var b := cfg.batchSize;
    if |t| <= b {
      assert t == texts[start..end];
      assert texts[end..] == [];
      assert Batches(t, b) == [t];
      assert Batches(t, b)[1..] == [];
    } else {
      assert t[..b] == texts[start..end];
      assert t[b..] == texts[end..];
    }
  }

  /** A batch is a run of distinct catalog entries. */
  lemma BatchFrame(entries: seq<CatalogEntry>, flags: seq<bool>, process: seq<CatalogEntry>, lo: nat, hi: nat)
    requires Distinct(process) && |flags| <= |entries| && |process| == |Positions(flags)| && lo <= hi <= |process|
    requires forall p :: 0 <= p < |process| ==> process[p] == entries[Positions(flags)[p]]
    ensures Distinct(process[lo..hi])
    ensures forall e :: e in process[lo..hi] ==> e in entries
  {
    forall e | e in process[lo..hi]
      ensures e in entries
    {
      var j :| 0 <= j < hi - lo && process[lo..hi][j] == e;
      assert e == entries[Positions(flags)[lo + j]];
    }
  }

  // ---------------------------------------------------------------------------
  // The driver

  function Msgids(batch: seq<CatalogEntry>): (texts: seq<string>)
    ensures |texts| == |batch| && forall i :: 0 <= i < |batch| ==> texts[i] == batch[i].msgid
  {
    seq(|batch|, i requires 0 <= i < |batch| => batch[i].msgid)
  }

  function KeepFlags(pending: seq<CatalogEntry>): (flags: seq<bool>)
    ensures |flags| == |pending| && forall i :: 0 <= i < |pending| ==> flags[i] == !Blank(pending[i].msgid)
  {
    seq(|pending|, i requires 0 <= i < |pending| => !Blank(pending[i].msgid))
  }

  /** The first loop of `translate_entries`: keep the entries whose stripped `msgid` is
      not empty, capturing the baseline of each one kept. */
  method KeepNonBlank(pending: seq<CatalogEntry>) returns (process: seq<CatalogEntry>)
    requires Distinct(pending)
    modifies set e | e in pending
    ensures process == Select(pending, KeepFlags(pending))
    ensures forall i :: 0 <= i < |pending| ==>
              pending[i].Value() == if Blank(pending[i].msgid) then old(pending[i].Value()) else Capture(old(pending[i].Value()))
  {
    ghost var flags := KeepFlags(pending);
    process := [];
    var i := 0;
    while i < |pending|
      invariant i <= |pending|
      invariant process == Select(pending[..i], flags[..i])
      invariant forall m :: 0 <= m < |pending| ==>
                  pending[m].Value() == if m >= i || Blank(pending[m].msgid) then old(pending[m].Value()) else Capture(old(pending[m].Value()))
    {
      var entry := pending[i];
      StripEmptyIffBlank(entry.msgid);
      if Strip(entry.msgid) != "" {
        entry.EnsureBaseline();
        process := process + [entry];
      }
      assert pending[..i + 1][..i] == pending[..i] && flags[..i + 1][..i] == flags[..i];
      i := i + 1;
    }
    assert pending[..i] == pending && flags[..i] == flags;
  }

  /** The write-back loop: walks the batch and its slots side by side, as far as the
      shorter of the two reaches, and stores every slot that holds a result. */
  method WriteBack(batch: seq<CatalogEntry>, slots: seq<Option<Translation>>) returns (written: nat)
    requires Distinct(batch)
    modifies set e | e in batch
    ensures var n := if |batch| < |slots| then |batch| else |slots|;
            written == CountSome(slots[..n])
            && forall j :: 0 <= j < |batch| ==>
                 batch[j].Value() == if j < n then Apply(old(batch[j].Value()), slots[j]) else old(batch[j].Value())
  {
    written := 0;
    var j := 0;
    while j < |batch| && j < |slots|
      invariant j <= |batch| && j <= |slots|
      invariant written == CountSome(slots[..j])
      invariant forall i :: 0 <= i < |batch| ==>
                  batch[i].Value() == if i < j then Apply(old(batch[i].Value()), slots[i]) else old(batch[i].Value())
    {
      if slots[j].Some? {
        batch[j].msgstr := Stored(slots[j].value);
        written := written + 1;
      }
      assert slots[..j + 1][..j] == slots[..j];
      j := j + 1;
    }
  }

  /** `process` lists, in order, the entries at the dispatch positions of `flags`. */
  predicate Layout(entries: seq<CatalogEntry>, process: seq<CatalogEntry>, vals: seq<EntryValue>, flags: seq<bool>) {
    Distinct(entries) && Distinct(process)
    && |flags| <= |vals| == |entries| && |process| == |Positions(flags)|
    && forall p :: 0 <= p < |process| ==> process[p] == entries[Positions(flags)[p]]
  }

  /** Every entry is as `StateAfter` says once the slots `done` have been applied. */
  predicate Reached(entries: seq<CatalogEntry>, vals: seq<EntryValue>, flags: seq<bool>, done: seq<Option<Translation>>)
    requires |flags| <= |vals| == |entries|
    reads set e | e in entries
  {
    forall m :: 0 <= m < |entries| ==> entries[m].Value() == StateAfter(vals, flags, done, m)
  }

  /** Writing back the results of the batch `process[lo..hi]`, lifted to the whole catalog. */
  method StoreSlots(entries: seq<CatalogEntry>, process: seq<CatalogEntry>, lo: nat, hi: nat,
                    slots: seq<Option<Translation>>, ghost flags: seq<bool>, ghost pre: seq<EntryValue>)
    returns (written: nat)
    requires Distinct(entries) && Distinct(process) && |flags| <= |entries| && |process| == |Positions(flags)|
    requires forall p :: 0 <= p < |process| ==> process[p] == entries[Positions(flags)[p]]
    requires lo <= hi <= |process| && |slots| == hi - lo && pre == Values(entries)
    modifies set e | e in entries
    ensures written == CountSome(slots)
    ensures forall m :: 0 <= m < |entries| ==> entries[m].Value() == Stepped(pre, flags, lo, slots, m)
  {
    var batch := process[lo..hi];
    BatchFrame(entries, flags, process, lo, hi);
    written := WriteBack(batch, slots);
    assert slots[..|batch|] == slots;
    forall m | 0 <= m < |entries|
      ensures entries[m].Value() == Stepped(pre, flags, lo, slots, m)
    {
      BatchMembers(entries, flags, process, lo, hi, m);
    }
  }

  /** One pass of the batch loop: translate `process[lo..hi]` and write back its results. */
  method SendBatch(entries: seq<CatalogEntry>, process: seq<CatalogEntry>, lo: nat, hi: nat, cfg: Config,
                   script: seq<Attempt>, ghost vals: seq<EntryValue>, ghost flags: seq<bool>,
                   ghost texts: seq<string>, ghost done: seq<Option<Translation>>)
    returns (written: nat, ghost slots: seq<Option<Translation>>)
    requires Layout(entries, process, vals, flags)
    requires lo == |done| <= hi <= |process| && texts == Msgids(process)
    requires Reached(entries, vals, flags, done)
    modifies set e | e in entries
    ensures slots == BatchSlots(cfg, texts[lo..hi], script)
    ensures written == CountSome(slots)
    ensures Reached(entries, vals, flags, done + slots)
  {
    ghost var pre := Values(entries);
    assert forall m :: 0 <= m < |pre| ==> pre[m] == StateAfter(vals, flags, done, m);
    var batch := process[lo..hi];
    assert Msgids(batch) == texts[lo..hi];
    var outcome := TranslateBatch(cfg, AsItems(Msgids(batch)), script);
    BatchShape(cfg, AsItems(Msgids(batch)), script);
    slots := if outcome.Returned? then outcome.slots else NoneSlots(|batch|);
    assert |done| + |slots| == hi;
    if outcome.Returned? {
      written := StoreSlots(entries, process, lo, hi, outcome.slots, flags, pre);
    } else {
      NoneSlotsAreNone<Translation>(|batch|);
      written := 0;
      forall m | 0 <= m < |entries|
        ensures entries[m].Value() == Stepped(pre, flags, |done|, slots, m)
      {
        if InRange(flags, m, |done|, |done| + |slots|) {
          assert slots[CountTrue(flags[..m]) - |done|] == None;
        }
      }
    }
    ghost var post := Values(entries);
    assert forall m :: 0 <= m < |post| ==> post[m] == Stepped(pre, flags, |done|, slots, m);
    BatchStep(vals, flags, done, slots, pre, post);
  }

  /** The batch loop of `translate_entries`: `process` holds the kept entries in order. */
  method SendBatches(entries: seq<CatalogEntry>, process: seq<CatalogEntry>, cfg: Config, oracles: seq<seq<Attempt>>,
                     ghost vals: seq<EntryValue>, ghost flags: seq<bool>, ghost texts: seq<string>)
    returns (count: nat)
    requires cfg.batchSize > 0 && texts == Msgids(process)
    requires Layout(entries, process, vals, flags)
    requires Reached(entries, vals, flags, [])
    modifies set e | e in entries
    ensures var all := RunSlots(cfg, Batches(texts, cfg.batchSize), oracles, 0);
            count == CountSome(all) && Reached(entries, vals, flags, all)
  {
    ghost var all := RunSlots(cfg, Batches(texts, cfg.batchSize), oracles, 0);
    FlattenBatches(cfg, texts, oracles, 0);
    count := 0;
    ghost var done: seq<Option<Translation>> := [];
    var start := 0;
    var k := 0;
    while start < |process|
      invariant start == |done| <= |process|
      invariant done + RunSlots(cfg, Batches(texts[start..], cfg.batchSize), oracles, k) == all
      invariant count == CountSome(done)
      invariant Reached(entries, vals, flags, done)
      decreases |process| - start
    {
      var end := if start + cfg.batchSize < |process| then start + cfg.batchSize else |process|;
      RunSlotsHead(cfg, texts, start, end, oracles, k);
      var written, slots := SendBatch(entries, process, start, end, cfg, OracleFor(oracles, k), vals, flags, texts, done);
      ghost var rest := RunSlots(cfg, Batches(texts[end..], cfg.batchSize), oracles, k + 1);
      assert RunSlots(cfg, Batches(texts[start..], cfg.batchSize), oracles, k) == slots + rest;
      ConcatAssoc(done, slots, rest);
      CountSomeConcat(done, slots);
      count := count + written;
      done := done + slots;
      start := end;
      k := k + 1;
    }
    assert texts[start..] == [];
    assert done == all;
  }

  /** The start of `translate_entries`: apply the cap, then keep the entries with a
      non-blank `msgid`, capturing their baselines. */
  method CollectPending(entries: seq<CatalogEntry>, cap: Option<int>, ghost vals: seq<EntryValue>, ghost flags: seq<bool>)
    returns (process: seq<CatalogEntry>)
    requires Distinct(entries) && vals == Values(entries) && flags == DispatchFlags(vals, cap)
    modifies set e | e in entries
    ensures Layout(entries, process, vals, flags) && Msgids(process) == DispatchedTexts(vals, cap)
    ensures Reached(entries, vals, flags, [])
  {
    DispatchFacts(vals, cap);
    var pending := entries;
    if cap.Some? && cap.value != 0 {
      pending := entries[..SliceStop(|entries|, cap.value)];
    }
    assert KeepFlags(pending) == flags;
    process := KeepNonBlank(pending);
    SelectAtPositions(pending, flags);
    SelectDistinct(pending, flags);
    assert Msgids(process) == DispatchedTexts(vals, cap);
  }

  /** Entries in the states `StateAfter` gives for all slots are the specified outcome. */
  lemma SpecFromStates(post: seq<EntryValue>, vals: seq<EntryValue>, cap: Option<int>, cfg: Config, oracles: seq<seq<Attempt>>)
    requires cfg.batchSize > 0 && |post| == |vals|
    requires forall m :: 0 <= m < |post| ==>
               post[m] == StateAfter(vals, DispatchFlags(vals, cap), Dispatched(vals, cap, cfg, oracles), m)
    ensures post == TranslateEntriesSpec(vals, cap, cfg, oracles).entries
  {
  }

  /** `translate_entries(po, entries, cap)`: batch `k` is answered by the k-th script of
      `oracles`. */
  method TranslateEntries(entries: seq<CatalogEntry>, cap: Option<int>, cfg: Config, oracles: seq<seq<Attempt>>)
    returns (count: nat)
    requires cfg.batchSize > 0 && Distinct(entries)
    modifies set e | e in entries
    ensures Values(entries) == TranslateEntriesSpec(old(Values(entries)), cap, cfg, oracles).entries
    ensures count == TranslateEntriesSpec(old(Values(entries)), cap, cfg, oracles).count
  {
    ghost var vals := Values(entries);
    ghost var flags := DispatchFlags(vals, cap);
    if |entries| == 0 {
      return 0;
    }
    var process := CollectPending(entries, cap, vals, flags);
    if |process| == 0 {
      assert Dispatched(vals, cap, cfg, oracles) == [];
      SpecFromStates(Values(entries), vals, cap, cfg, oracles);
      return 0;
    }
    count := SendBatches(entries, process, cfg, oracles, vals, flags, DispatchedTexts(vals, cap));
    SpecFromStates(Values(entries), vals, cap, cfg, oracles);
  }

  // ---------------------------------------------------------------------------
  // Properties of translate_entries

  /** The slots line up with the dispatched entries: one per non-blank entry among the
      first `Limit` ones. */
  lemma DispatchedAligned(vals: seq<EntryValue>, cap: Option<int>, cfg: Config, oracles: seq<seq<Attempt>>)
    requires cfg.batchSize > 0
    ensures |Dispatched(vals, cap, cfg, oracles)| == |DispatchedTexts(vals, cap)| == CountTrue(DispatchFlags(vals, cap))
  {
    DispatchFacts(vals, cap);
    FlattenBatches(cfg, DispatchedTexts(vals, cap), oracles, 0);
  }

  /** The slots of each batch, batch `b` answered by script `k + b`. */
  function Answers(cfg: Config, batches: seq<seq<string>>, oracles: seq<seq<Attempt>>, k: nat): (r: seq<seq<Option<Translation>>>)
    ensures |r| == |batches|
  {
    if |batches| == 0 then []
    else [BatchSlots(cfg, batches[0], OracleFor(oracles, k))] + Answers(cfg, batches[1..], oracles, k + 1)
  }

  lemma {:induction false} AnswersAt(cfg: Config, batches: seq<seq<string>>, oracles: seq<seq<Attempt>>, k: nat, b: nat)
    requires b < |batches|
    ensures Answers(cfg, batches, oracles, k)[b] == BatchSlots(cfg, batches[b], OracleFor(oracles, k + b))
    decreases b
  {
    if b > 0 {
      AnswersAt(cfg, batches[1..], oracles, k + 1, b - 1);
    }
  }

  lemma {:induction false} RunSlotsFlatten(cfg: Config, batches: seq<seq<string>>, oracles: seq<seq<Attempt>>, k: nat)
    ensures RunSlots(cfg, batches, oracles, k) == Flatten(Answers(cfg, batches, oracles, k))
    decreases |batches|
  {
    if |batches| > 0 {
      RunSlotsFlatten(cfg, batches[1..], oracles, k + 1);
      assert Answers(cfg, batches, oracles, k)[1..] == Answers(cfg, batches[1..], oracles, k + 1);
    }
  }

  /** Batch `b` is answered by script `k + b`, and its slots sit between those of the
      batches before it and those of the batches after it. */
  lemma RunSlotsSplit(cfg: Config, batches: seq<seq<string>>, oracles: seq<seq<Attempt>>, k: nat, b: nat)
    requires b < |batches|
    ensures RunSlots(cfg, batches, oracles, k)
            == Flatten(Answers(cfg, batches, oracles, k)[..b])
               + BatchSlots(cfg, batches[b], OracleFor(oracles, k + b))
               + Flatten(Answers(cfg, batches, oracles, k)[b + 1..])
  {
    RunSlotsFlatten(cfg, batches, oracles, k);
    FlattenSplit(Answers(cfg, batches, oracles, k), b);
    AnswersAt(cfg, batches, oracles, k, b);
  }

  /** Nothing but the dispatched entries changes; a dispatched entry gets its baseline
      captured, and its `msgstr` changes only to the result in its slot. */
  lemma RunChangesOnlySlots(vals: seq<EntryValue>, cap: Option<int>, cfg: Config, oracles: seq<seq<Attempt>>, m: nat)
    requires cfg.batchSize > 0 && m < |vals|
    ensures var run := TranslateEntriesSpec(vals, cap, cfg, oracles);
            var slots := Dispatched(vals, cap, cfg, oracles);
            var after := run.entries[m];
            after.msgid == vals[m].msgid
            && (m >= Limit(|vals|, cap) || Blank(vals[m].msgid) ==> after == vals[m])
            && (m < Limit(|vals|, cap) && !Blank(vals[m].msgid) ==>
                  var r := CountTrue(DispatchFlags(vals, cap)[..m]);
                  r < |slots| == |DispatchedTexts(vals, cap)| && DispatchedTexts(vals, cap)[r] == vals[m].msgid
                  && after.baseline == Capture(vals[m]).baseline
                  && after.msgstr == if slots[r].Some? then Stored(slots[r].value) else vals[m].msgstr)
  {
    var flags := DispatchFlags(vals, cap);
    DispatchedAligned(vals, cap, cfg, oracles);
    DispatchFacts(vals, cap);
    if m < |flags| && flags[m] {
      PositionsRank(flags, m);
    }
  }

  /** The count is the number of slots that hold a result, never more than the number of
      entries sent, which is at most the number considered. */
  lemma RunCountBound(vals: seq<EntryValue>, cap: Option<int>, cfg: Config, oracles: seq<seq<Attempt>>)
    requires cfg.batchSize > 0
    ensures var run := TranslateEntriesSpec(vals, cap, cfg, oracles);
            run.count == CountSome(Dispatched(vals, cap, cfg, oracles))
            && run.count <= |DispatchedTexts(vals, cap)| <= Limit(|vals|, cap) <= |vals|
  {
    DispatchedAligned(vals, cap, cfg, oracles);
    CountSomeBound(Dispatched(vals, cap, cfg, oracles));
    CountTrueBound(DispatchFlags(vals, cap));
  }

  /** No entries, or only blank ones among those considered: nothing is sent, nothing
      changes and the count is 0. */
  lemma RunNoop(vals: seq<EntryValue>, cap: Option<int>, cfg: Config, oracles: seq<seq<Attempt>>)
    requires cfg.batchSize > 0
    requires forall i :: 0 <= i < Limit(|vals|, cap) ==> Blank(vals[i].msgid)
    ensures TranslateEntriesSpec(vals, cap, cfg, oracles) == Run(vals, 0)
  {
    var flags := DispatchFlags(vals, cap);
    NoneSet(flags);
    DispatchedAligned(vals, cap, cfg, oracles);
    var run := TranslateEntriesSpec(vals, cap, cfg, oracles);
    assert run.entries == vals;
  }

  /** An entry that received a result is listed as modified unless its baseline already
      holds that very result. */
  lemma RunMarksModified(vals: seq<EntryValue>, cap: Option<int>, cfg: Config, oracles: seq<seq<Attempt>>, m: nat)
    requires cfg.batchSize > 0 && m < Limit(|vals|, cap) && !Blank(vals[m].msgid)
    ensures var slots := Dispatched(vals, cap, cfg, oracles);
            var r := CountTrue(DispatchFlags(vals, cap)[..m]);
            var after := TranslateEntriesSpec(vals, cap, cfg, oracles).entries[m];
            r < |slots|
            && (slots[r].Some? && Capture(vals[m]).baseline != Some(Stored(slots[r].value)) ==> IsModified(after))
  {
    RunChangesOnlySlots(vals, cap, cfg, oracles, m);
  }

  // ---------------------------------------------------------------------------
  // The "translate" menu step

  /** What the answer to "how many entries to translate" means. */
  datatype CapAnswer = CancelRun | Rejected | RunWith(cap: Option<int>)

  /** An empty answer means all entries, 0 cancels, another integer is the cap, and
      anything `int()` rejects is reported as invalid. */
  function ParseCapAnswer(answer: string): CapAnswer {
    var batch := Strip(answer);
    if batch == "" then RunWith(None)
    else match PyInt(batch)
      case None => Rejected
      case Some(n) => if n == 0 then CancelRun else RunWith(Some(n))
  }

  /** Typing the decimal form of `n` (within the digit limit) cancels for 0 and caps at
      `n` otherwise; a blank answer runs uncapped. */
  lemma ParseCapAnswerDecimal(n: int, blank: string)
    requires DecimalDigits(n) <= MaxStrDigits && Blank(blank)
    ensures ParseCapAnswer(Decimal(n)) == if n == 0 then CancelRun else RunWith(Some(n))
    ensures ParseCapAnswer(blank) == RunWith(None)
  {
    PyIntDecimal(n);
    DecimalTrimmed(n);
    StripEmptyIffBlank(blank);
  }

  /** A number with more digits than `int()` converts is reported as invalid. */
  lemma ParseCapAnswerTooLong(g: string)
    requires IsDigitGroup(g) && DigitCount(g) > MaxStrDigits
    ensures ParseCapAnswer(g) == Rejected
  {
    PyIntTooLong("", g);
    assert "" + g == g;
  }

  datatype StepResult = NothingPending | Cancelled | InvalidNumber | Translated(count: nat)

  /** Menu choice 3: list the untranslated entries, read the cap, and translate. */
  method TranslateMenuStep(po: seq<CatalogEntry>, answer: string, cfg: Config, oracles: seq<seq<Attempt>>)
    returns (res: StepResult)
    requires cfg.batchSize > 0 && Distinct(po)
    modifies set e | e in po
    ensures old(GetUntranslatedEntries(po)) == [] ==> res == NothingPending
    ensures old(GetUntranslatedEntries(po)) != [] ==>
              match ParseCapAnswer(answer)
              case CancelRun => res == Cancelled
              case Rejected => res == InvalidNumber
              case RunWith(cap) => res.Translated?
    ensures !res.Translated? ==> forall m :: 0 <= m < |po| ==> po[m].Value() == old(po[m].Value())
    ensures forall m :: 0 <= m < |po| && po[m] !in old(GetUntranslatedEntries(po)) ==>
              po[m].Value() == old(po[m].Value())
    ensures res.Translated? ==>
              var pending := old(GetUntranslatedEntries(po));
              var run := TranslateEntriesSpec(old(Values(pending)), ParseCapAnswer(answer).cap, cfg, oracles);
              Values(pending) == run.entries && res.count == run.count
  {
    var untranslated := GetUntranslatedEntries(po);
    if |untranslated| == 0 {
      return NothingPending;
    }
    UntranslatedExact(po);
    var choice := ParseCapAnswer(answer);
    if choice.CancelRun? {
      return Cancelled;
    }
    if choice.Rejected? {
      return InvalidNumber;
    }
    var count := TranslateEntries(untranslated, choice.cap, cfg, oracles);
    res := Translated(count);
  }
}
