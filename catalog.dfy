/** Catalog entries and the change tracking of `TranslationManager`: load-time baseline
    capture, statistics, the untranslated and modified filters, the save-time baseline
    reset and the manual edit of a translation. */
module Catalog {
  import opened Wrappers
  import opened Seqs
  import opened PyStr
  import Translator

  /** What an entry's `msgstr` holds: the catalog's string, or, once the batch driver has
      applied a result, the whole result dict it assigns. */
  datatype MsgStr = Text(s: string) | Stored(result: Translator.Translation)

  /** Python truthiness of `msgstr`: a non-empty string, or a (never empty) result dict. */
  predicate IsSet(m: MsgStr) {
    m != Text("")
  }

  /** The state of one entry: its source text, its translation, and its baseline
      (`original_msgstr`, absent until first captured). */
  datatype EntryValue = EntryValue(msgid: string, msgstr: MsgStr, baseline: Option<MsgStr>)

  predicate IsTranslated(v: EntryValue) {
    IsSet(v.msgstr)
  }

  /** Changed since the baseline was taken. */
  predicate IsModified(v: EntryValue) {
    v.baseline.Some? && v.msgstr != v.baseline.value
  }

  /** Baseline capture: take the current translation as baseline unless one exists. */
  function Capture(v: EntryValue): (r: EntryValue)
    ensures r.msgid == v.msgid && r.msgstr == v.msgstr && r.baseline.Some?
    ensures v.baseline.Some? ==> r.baseline == v.baseline
    ensures v.baseline.None? ==> r.baseline == Some(v.msgstr)
  {
    if v.baseline.None? then v.(baseline := Some(v.msgstr)) else v
  }

  /** Save-time reset: a present baseline becomes the current translation. */
  function ResetBaseline(v: EntryValue): (r: EntryValue)
    ensures r.msgid == v.msgid && r.msgstr == v.msgstr
    ensures r.baseline.Some? <==> v.baseline.Some?
    ensures !IsModified(r)
  {
    if v.baseline.Some? then v.(baseline := Some(v.msgstr)) else v
  }

  /** Capturing again never overwrites a baseline. */
  lemma CaptureIdempotent(v: EntryValue)
    ensures Capture(Capture(v)) == Capture(v)
    ensures IsModified(Capture(v)) == IsModified(v)
    ensures !IsModified(Capture(v)) || v.baseline.Some?
  {
  }

  /** A catalog entry (a `polib` entry object) carrying its baseline attribute. */
  class CatalogEntry {
    const msgid: string
    var msgstr: MsgStr
    var original: Option<MsgStr>

    /** An entry as the catalog parser produces it: no baseline yet. */
    constructor (msgid: string, msgstr: MsgStr)
      ensures this.msgid == msgid && this.msgstr == msgstr && original == None
    {
      this.msgid := msgid;
      this.msgstr := msgstr;
      original := None;
    }

    function Value(): EntryValue
      reads this
    {
      EntryValue(msgid, msgstr, original)
    }

    /** Takes the current translation as baseline when the entry has none yet. */
    method EnsureBaseline()
      modifies this
      ensures Value() == Capture(old(Value()))
    {
      if original.None? {
        original := Some(msgstr);
      }
    }
  }

  function Values(po: seq<CatalogEntry>): (vs: seq<EntryValue>)
    reads set e | e in po
    ensures |vs| == |po| && forall m :: 0 <= m < |po| ==> vs[m] == po[m].Value()
  {
    seq(|po|, m requires 0 <= m < |po| reads set e | e in po => po[m].Value())
  }

  /** Loading: the parsed catalog, or `None` when parsing failed; every entry without a
      baseline gets its current translation as baseline. */
  method LoadPoFile(parsed: Option<seq<CatalogEntry>>) returns (po: Option<seq<CatalogEntry>>)
    requires parsed.Some? ==> Distinct(parsed.value)
    modifies if parsed.Some? then set e | e in parsed.value else {}
    ensures po == parsed
    ensures parsed.Some? ==>
              forall m :: 0 <= m < |parsed.value| ==>
                parsed.value[m].Value() == Capture(old(parsed.value[m].Value()))
  {
    if parsed.None? {
      return None;
    }
    var entries := parsed.value;
    var i := 0;
    while i < |entries|
      invariant i <= |entries|
      invariant forall m :: 0 <= m < |entries| ==>
                  entries[m].Value() == if m < i then Capture(old(entries[m].Value())) else old(entries[m].Value())
    {
      entries[i].EnsureBaseline();
      i := i + 1;
    }
    return parsed;
  }

  // ---------------------------------------------------------------------------
  // Statistics and filters

  /** Translation statistics; the percentage is exact here (no rounding). */
  datatype Stats = Stats(total: nat, translated: nat, untranslated: int, percent: real)

  function TranslatedFlags(po: seq<CatalogEntry>): (flags: seq<bool>)
    reads set e | e in po
    ensures |flags| == |po| && forall m :: 0 <= m < |po| ==> flags[m] == IsTranslated(po[m].Value())
  {
    seq(|po|, m requires 0 <= m < |po| reads set e | e in po => IsTranslated(po[m].Value()))
  }

  function UntranslatedFlags(po: seq<CatalogEntry>): (flags: seq<bool>)
    reads set e | e in po
    ensures |flags| == |po| && forall m :: 0 <= m < |po| ==> flags[m] == !IsTranslated(po[m].Value())
  {
    seq(|po|, m requires 0 <= m < |po| reads set e | e in po => !IsTranslated(po[m].Value()))
  }

  function ModifiedFlags(po: seq<CatalogEntry>): (flags: seq<bool>)
    reads set e | e in po
    ensures |flags| == |po| && forall m :: 0 <= m < |po| ==> flags[m] == IsModified(po[m].Value())
  {
    seq(|po|, m requires 0 <= m < |po| reads set e | e in po => IsModified(po[m].Value()))
  }

  /** Every entry counts; an entry is translated when its `msgstr` is truthy. */
  function GetTranslationStats(po: seq<CatalogEntry>): Stats
    reads set e | e in po
  {
    var total := |po|;
    var translated := CountTrue(TranslatedFlags(po));
    Stats(total, translated, total - translated, Percent(translated, total))
  }

  /** `translated / total * 100`, or 0 for an empty catalog. */
  function Percent(translated: nat, total: nat): real {
    if total > 0 then (translated as real) / (total as real) * 100.0 else 0.0
  }

  lemma PercentBounds(translated: nat, total: nat)
    requires translated <= total
    ensures 0.0 <= Percent(translated, total) <= 100.0
    ensures total == 0 ==> Percent(translated, total) == 0.0
    ensures translated == total && total > 0 ==> Percent(translated, total) == 100.0
  {
    if total > 0 {
      var ratio := (translated as real) / (total as real);
      assert ratio <= 1.0;
      assert ratio * 100.0 <= 100.0;
    }
  }

  /** The entries whose `msgstr` is empty, in catalog order. */
  function GetUntranslatedEntries(po: seq<CatalogEntry>): seq<CatalogEntry>
    reads set e | e in po
  {
    Select(po, UntranslatedFlags(po))
  }

  /** The entries with a baseline that differs from their `msgstr`, in catalog order. */
  function GetModifiedEntries(po: seq<CatalogEntry>): seq<CatalogEntry>
    reads set e | e in po
  {
    Select(po, ModifiedFlags(po))
  }

  /** The counts add up, the untranslated count is the length of the untranslated list,
      and the percentage lies in [0, 100] and is 0 for an empty catalog. */
  lemma StatsConsistent(po: seq<CatalogEntry>)
    ensures var s := GetTranslationStats(po);
            s.total == |po| && s.translated <= s.total
            && s.translated + s.untranslated == s.total
            && s.untranslated == |GetUntranslatedEntries(po)|
            && 0.0 <= s.percent <= 100.0
            && (s.total == 0 ==> s.percent == 0.0)
            && (s.translated == s.total && s.total > 0 ==> s.percent == 100.0)
  {
    var t := TranslatedFlags(po);
    var u := UntranslatedFlags(po);
    CountTrueComplement(t, u);
    SelectAtPositions(po, u);
    PercentBounds(CountTrue(t), |po|);
  }

  /** A filter of the catalog: exactly the entries whose flag holds, in catalog order,
      each once. */
  predicate IsOrderedFilter(po: seq<CatalogEntry>, flags: seq<bool>, r: seq<CatalogEntry>)
    requires |flags| == |po|
  {
    var ps := Positions(flags);
    && |r| == |ps|
    && StrictlyIncreasing(ps)
    && (forall k :: 0 <= k < |ps| ==> ps[k] < |po| && flags[ps[k]] && r[k] == po[ps[k]])
    && (forall m :: 0 <= m < |po| && flags[m] ==> m in ps)
  }

  lemma SelectIsOrderedFilter(po: seq<CatalogEntry>, flags: seq<bool>)
    requires |flags| == |po|
    ensures IsOrderedFilter(po, flags, Select(po, flags))
    ensures Distinct(po) ==> Distinct(Select(po, flags))
  {
    SelectAtPositions(po, flags);
    PositionsExact(flags);
    if Distinct(po) {
      SelectDistinct(po, flags);
    }
  }

  /** `get_untranslated_entries` keeps exactly the entries with an empty `msgstr`, in
      order, each once. */
  lemma UntranslatedExact(po: seq<CatalogEntry>)
    ensures IsOrderedFilter(po, UntranslatedFlags(po), GetUntranslatedEntries(po))
    ensures forall e :: e in GetUntranslatedEntries(po) <==> e in po && e.msgstr == Text("")
    ensures Distinct(po) ==> Distinct(GetUntranslatedEntries(po))
  {
    SelectIsOrderedFilter(po, UntranslatedFlags(po));
    forall e
      ensures e in GetUntranslatedEntries(po) <==> e in po && e.msgstr == Text("")
    {
      SelectMembers(po, UntranslatedFlags(po), e);
    }
  }

  /** `get_modified_entries` keeps exactly the entries that have a baseline differing
      from their `msgstr`, in order, each once. */
  lemma ModifiedExact(po: seq<CatalogEntry>)
    ensures IsOrderedFilter(po, ModifiedFlags(po), GetModifiedEntries(po))
    ensures forall e :: e in GetModifiedEntries(po) <==>
              e in po && e.original.Some? && e.msgstr != e.original.value
    ensures Distinct(po) ==> Distinct(GetModifiedEntries(po))
  {
    SelectIsOrderedFilter(po, ModifiedFlags(po));
    forall e
      ensures e in GetModifiedEntries(po) <==> e in po && e.original.Some? && e.msgstr != e.original.value
    {
      SelectMembers(po, ModifiedFlags(po), e);
    }
  }

  /** When every baseline matches its translation nothing is listed as modified. */
  lemma NoModifiedWhenBaselinesCurrent(po: seq<CatalogEntry>)
    requires forall m :: 0 <= m < |po| ==> !IsModified(po[m].Value())
    ensures GetModifiedEntries(po) == []
  {
    NoneSet(ModifiedFlags(po));
    SelectAtPositions(po, ModifiedFlags(po));
  }

  // ---------------------------------------------------------------------------
  // Saving and editing

  /** Saving: every present baseline is reset to the current translation, then the
      catalog is written; `persisted` is whether writing succeeded.  The reset happens
      whether or not the write succeeds. */
  method SavePoFile(po: seq<CatalogEntry>, persisted: bool) returns (ok: bool)
    requires Distinct(po)
    modifies set e | e in po
    ensures ok == persisted
    ensures forall m :: 0 <= m < |po| ==> po[m].Value() == ResetBaseline(old(po[m].Value()))
    ensures GetModifiedEntries(po) == []
  {
    var i := 0;
    while i < |po|
      invariant i <= |po|
      invariant forall m :: 0 <= m < |po| ==>
                  po[m].Value() == if m < i then ResetBaseline(old(po[m].Value())) else old(po[m].Value())
    {
      var entry := po[i];
      if entry.original.Some? {
        entry.original := Some(entry.msgstr);
      }
      i := i + 1;
    }
    NoModifiedWhenBaselinesCurrent(po);
    ok := persisted;
  }

  /** A manual edit with the answer `answer`: a non-blank answer, stripped, becomes the
      translation, after the baseline is captured if missing; a blank one changes nothing. */
  function Edit(v: EntryValue, answer: string): EntryValue {
    var text := Strip(answer);
    if text == "" then v else Capture(v).(msgstr := Text(text))
  }

  /** An edit keeps the entry's baseline (capturing it if absent) and the entry is then
      modified exactly when the new text differs from that baseline; a blank answer
      changes nothing. */
  lemma EditTracksBaseline(v: EntryValue, answer: string)
    ensures Blank(answer) ==> Edit(v, answer) == v
    ensures !Blank(answer) ==>
              var r := Edit(v, answer);
              r.msgstr == Text(Strip(answer)) && Strip(answer) != ""
              && r.baseline == Capture(v).baseline
              && (IsModified(r) <==> Capture(v).baseline.value != Text(Strip(answer)))
  {
    StripEmptyIffBlank(answer);
  }

  method EditTranslation(entry: CatalogEntry, answer: string) returns (changed: bool)
    modifies entry
    ensures changed == !Blank(answer)
    ensures entry.Value() == Edit(old(entry.Value()), answer)
  {
    StripEmptyIffBlank(answer);
    var newTranslation := Strip(answer);
    if newTranslation != "" {
      entry.EnsureBaseline();
      entry.msgstr := Text(newTranslation);
      changed := true;
    } else {
      changed := false;
    }
  }

  /** The edit step of the unsaved-changes view: entry number `entryNum` of the modified
      list (the prompt only accepts 1..length) gets the answer; afterwards it is listed
      as modified exactly when the answer differs from its baseline. */
  method EditModifiedEntry(po: seq<CatalogEntry>, entryNum: int, answer: string) returns (changed: bool)
    requires 1 <= entryNum <= |GetModifiedEntries(po)|
    modifies GetModifiedEntries(po)[entryNum - 1]
    ensures var selected := old(GetModifiedEntries(po))[entryNum - 1];
            selected in po
            && selected.Value() == Edit(old(selected.Value()), answer)
            && changed == !Blank(answer)
            && selected.original.Some?
            && (changed ==> (selected in GetModifiedEntries(po) <==> selected.original.value != Text(Strip(answer))))
  {
    ModifiedExact(po);
    var selected := GetModifiedEntries(po)[entryNum - 1];
    changed := EditTranslation(selected, answer);
    ModifiedExact(po);
    EditTracksBaseline(old(selected.Value()), answer);
  }
}
