/**
 The zwp_linux_dmabuf_feedback_v1 listener: tranches are built event by event in tmpTranche, and the ones
 of an earlier round are dropped lazily, at the first event of the next round that checks for it.
 */
module DmabufFeedback {
  import opened Seqs
  import opened FormatSets

  const TRANCHE_FLAGS_SCANOUT: bv32 := 1
  const TRANCHE_FLAGS_SAMPLING: bv32 := 2

  datatype Tranche = Tranche(dev: nat, scanout: bool, sampling: bool, formats: seq<Format>)

  /** The zeroed tmpTranche. */
  const BLANK := Tranche(0, false, false, [])

  /** `FormatTable(None)` is a table that could not be mapped. */
  datatype Event =
    | FormatTable(table: Option<seq<Entry>>)
    | MainDevice(main: nat)
    | TargetDevice(target: nat)
    | TrancheFlags(flags: bv32)
    | TrancheFormats(indices: seq<nat>)
    | TrancheDone
    | Done

  datatype State = State(
    tranches: seq<Tranche>,
    table: seq<Entry>,
    mainDev: nat,
    tmp: Tranche,
    feedbackDone: bool,
    unprocessed: bool)

  /** A feedback object after calloc. */
  const FRESH := State([], [], 0, BLANK, false, false)

  /** dmabuf_feedback_check_reset_tranches. */
  function CheckReset(s: State): State {
    if s.feedbackDone then s.(feedbackDone := false, tranches := []) else s
  }

  /** The entries that the indices name; an index beyond the table is skipped. */
  function InRange(indices: seq<nat>, table: seq<Entry>): seq<Entry> {
    if indices == [] then []
    else
      var before, last := InRange(indices[..|indices| - 1], table), indices[|indices| - 1];
      if last < |table| then before + [table[last]] else before
  }

  function TableOf(table: Option<seq<Entry>>): seq<Entry> {
    match table
    case None => []
    case Some(entries) => entries
  }

  /** An event of a tranche, applied to tmpTranche. */
  function Fill(tmp: Tranche, e: Event, table: seq<Entry>): Tranche {
    match e
    case TargetDevice(dev) => tmp.(dev := dev)
    case TrancheFlags(flags) =>
      tmp.(scanout := tmp.scanout || flags & TRANCHE_FLAGS_SCANOUT != 0,
           sampling := tmp.sampling || flags & TRANCHE_FLAGS_SAMPLING != 0)
    case TrancheFormats(indices) => tmp.(formats := AddAll(tmp.formats, InRange(indices, table)))
    case _ => tmp
  }

  predicate InTranche(e: Event) {
    e.TargetDevice? || e.TrancheFlags? || e.TrancheFormats?
  }

  function Handle(s: State, e: Event): State {
    match e
    case FormatTable(table) => s.(table := TableOf(table))
    case MainDevice(dev) => CheckReset(s).(mainDev := dev)
    case TrancheDone => s.(tranches := s.tranches + [s.tmp], tmp := BLANK)
    case Done => s.(feedbackDone := true, unprocessed := true)
    case _ => CheckReset(s).(tmp := Fill(s.tmp, e, s.table))
  }

  function HandleAll(s: State, events: seq<Event>): State {
    if events == [] then s else Handle(HandleAll(s, events[..|events| - 1]), events[|events| - 1])
  }

  // ------------------------------------------------------------------ the listener

  /** WlEglDmaBufFeedback; tmpFormats is tmpTranche.formatSet, grown in place. */
  class Feedback {
    var tranches: seq<Tranche>
    var table: seq<Entry>
    var mainDev: nat
    var tmpDev: nat
    var tmpScanout: bool
    var tmpSampling: bool
    const tmpFormats: FormatSet
    var feedbackDone: bool
    var unprocessed: bool

    ghost function View(): State
      reads this, tmpFormats
    {
      State(tranches, table, mainDev, Tranche(tmpDev, tmpScanout, tmpSampling, tmpFormats.formats),
            feedbackDone, unprocessed)
    }

    constructor ()
      ensures fresh(tmpFormats) && View() == FRESH
    {
      tranches, table, mainDev := [], [], 0;
      tmpDev, tmpScanout, tmpSampling := 0, false, false;
      tmpFormats := new FormatSet();
      feedbackDone, unprocessed := false, false;
    }

    /** Resetting no tranches is skipped, as in wlEglFeedbackResetTranches. */
    method CheckResetTranches()
      modifies this
      ensures View() == CheckReset(old(View()))
    {
      if !feedbackDone {
        return;
      }
      feedbackDone := false;
      if |tranches| == 0 {
        return;
      }
      tranches := [];
    }

    method OnFormatTable(mapped: Option<seq<Entry>>)
      modifies this
      ensures View() == Handle(old(View()), FormatTable(mapped))
      ensures mapped.Some? ==> table == mapped.value
    {
      table := [];
      if mapped.Some? {
        table := mapped.value;
      }
    }

    method OnMainDevice(dev: nat)
      modifies this
      ensures View() == Handle(old(View()), MainDevice(dev))
    {
      CheckResetTranches();
      mainDev := dev;
    }

    method OnTargetDevice(dev: nat)
      modifies this
      ensures View() == Handle(old(View()), TargetDevice(dev))
    {
      CheckResetTranches();
      tmpDev := dev;
    }

    method OnTrancheFlags(flags: bv32)
      modifies this
      ensures View() == Handle(old(View()), TrancheFlags(flags))
    {
      CheckResetTranches();
      if flags & TRANCHE_FLAGS_SCANOUT != 0 {
        tmpScanout := true;
      }
      if flags & TRANCHE_FLAGS_SAMPLING != 0 {
        tmpSampling := true;
      }
    }

    method OnTrancheFormats(indices: seq<nat>)
      modifies this, tmpFormats
      ensures View() == Handle(old(View()), TrancheFormats(indices))
    {
      CheckResetTranches();
      AddEntries(tmpFormats, indices, table);
    }

    /** The loop over the indices of a tranche_formats event. */
    static method AddEntries(formats: FormatSet, indices: seq<nat>, table: seq<Entry>)
      modifies formats
      ensures formats.formats == AddAll(old(formats.formats), InRange(indices, table))
    {
      var i := 0;
      while i < |indices|
        invariant 0 <= i <= |indices|
        invariant formats.formats == AddAll(old(formats.formats), InRange(indices[..i], table))
      {
        InRangeStep(indices, i, table, old(formats.formats));
        if indices[i] < |table| {
          formats.Add(table[indices[i]]);
        }
        i := i + 1;
      }
      assert indices[..i] == indices;
    }

    method OnTrancheDone()
      modifies this, tmpFormats
      ensures View() == Handle(old(View()), TrancheDone)
    {
      tranches := tranches + [Tranche(tmpDev, tmpScanout, tmpSampling, tmpFormats.formats)];
      tmpDev, tmpScanout, tmpSampling := 0, false, false;
      tmpFormats.formats := [];
    }

    method OnDone()
      modifies this
      ensures View() == Handle(old(View()), Done)
    {
      feedbackDone, unprocessed := true, true;
    }
  }

  /** One index further: its entry is added if it has one. */
  lemma InRangeStep(indices: seq<nat>, i: nat, table: seq<Entry>, formats: seq<Format>)
    requires i < |indices|
    ensures var sofar := AddAll(formats, InRange(indices[..i], table));
      AddAll(formats, InRange(indices[..i + 1], table)) ==
      if indices[i] < |table| then Added(sofar, table[indices[i]]) else sofar
  {
    assert indices[..i + 1][..|indices[..i + 1]| - 1] == indices[..i];
    if indices[i] < |table| {
      AddAllOne(formats, InRange(indices[..i], table), table[indices[i]]);
    }
  }

  lemma AddAllOne(formats: seq<Format>, entries: seq<Entry>, e: Entry)
    ensures AddAll(formats, entries + [e]) == Added(AddAll(formats, entries), e)
  {
    assert (entries + [e])[..|entries + [e]| - 1] == entries;
  }

  // ------------------------------------------------------------------ what a round means

  /** A round of feedback: table and main device, then tranches, each closed by tranche_done, then done. */
  datatype Round = Round(header: seq<Event>, tranches: seq<seq<Event>>)

  function TranchesEvents(tranches: seq<seq<Event>>): seq<Event> {
    if tranches == [] then []
    else TranchesEvents(tranches[..|tranches| - 1]) + tranches[|tranches| - 1] + [TrancheDone]
  }

  function RoundEvents(r: Round): seq<Event> {
    r.header + TranchesEvents(r.tranches) + [Done]
  }

  predicate TrancheShaped(events: seq<Event>) {
    events != [] && forall k :: 0 <= k < |events| ==> InTranche(events[k])
  }

  /** The order linux-dmabuf-v1 gives the events of a round. */
  predicate Shaped(r: Round) {
    && (forall k :: 0 <= k < |r.header| ==> r.header[k].FormatTable? || r.header[k].MainDevice?)
    && (forall i :: 0 <= i < |r.tranches| ==> TrancheShaped(r.tranches[i]))
  }

  predicate HasMain(events: seq<Event>) {
    exists k :: 0 <= k < |events| && events[k].MainDevice?
  }

  /** The table a header leaves in place. */
  function TableAfter(table: seq<Entry>, header: seq<Event>): seq<Entry> {
    if header == [] then table
    else
      var last := header[|header| - 1];
      if last.FormatTable? then TableOf(last.table) else TableAfter(table, header[..|header| - 1])
  }

  function MainAfter(dev: nat, header: seq<Event>): nat {
    if header == [] then dev
    else
      var last := header[|header| - 1];
      if last.MainDevice? then last.main else MainAfter(dev, header[..|header| - 1])
  }

  /** The device a tranche names last, or 0. */
  function DeviceOf(events: seq<Event>): nat {
    if events == [] then 0
    else
      var last := events[|events| - 1];
      if last.TargetDevice? then last.target else DeviceOf(events[..|events| - 1])
  }

  predicate Raises(e: Event, flag: bv32) {
    e.TrancheFlags? && e.flags & flag != 0
  }

  predicate HasFlag(events: seq<Event>, flag: bv32) {
    exists k :: 0 <= k < |events| && Raises(events[k], flag)
  }

  /** All table entries a tranche names, in order. */
  function EntriesOf(events: seq<Event>, table: seq<Entry>): seq<Entry> {
    if events == [] then []
    else
      var before, last := EntriesOf(events[..|events| - 1], table), events[|events| - 1];
      if last.TrancheFormats? then before + InRange(last.indices, table) else before
  }

  /** What a tranche says, without any tmpTranche. */
  function Meaning(events: seq<Event>, table: seq<Entry>): Tranche {
    Tranche(DeviceOf(events), HasFlag(events, TRANCHE_FLAGS_SCANOUT), HasFlag(events, TRANCHE_FLAGS_SAMPLING),
            Grouped(EntriesOf(events, table)))
  }

  function Meanings(tranches: seq<seq<Event>>, table: seq<Entry>): (r: seq<Tranche>)
    ensures |r| == |tranches|
    ensures forall i :: 0 <= i < |r| ==> r[i] == Meaning(tranches[i], table)
  {
    seq(|tranches|, i requires 0 <= i < |tranches| => Meaning(tranches[i], table))
  }

  // ------------------------------------------------------------------ the listener agrees

  /** Between rounds tmpTranche is blank, and stored tranches are marked as done. */
  predicate Ready(s: State) {
    s.tmp == BLANK && (s.feedbackDone || s.tranches == [])
  }

  lemma {:induction false} HandleAllJoin(s: State, a: seq<Event>, b: seq<Event>)
    ensures HandleAll(s, a + b) == HandleAll(HandleAll(s, a), b)
  {
    if b == [] {
      assert a + b == a;
    } else {
      HandleAllJoin(s, a, b[..|b| - 1]);
      assert (a + b)[..|a + b| - 1] == a + b[..|b| - 1];
    }
  }

  lemma HasMainLast(events: seq<Event>, e: Event)
    ensures HasMain(events + [e]) <==> HasMain(events) || e.MainDevice?
  {
    assert (events + [e])[|events|] == e;
    forall k | 0 <= k < |events|
      ensures (events + [e])[k] == events[k]
    {}
  }

  /** A header drops the stored tranches exactly if it names the main device. */
  lemma {:induction false} HeaderDone(s: State, header: seq<Event>)
    requires forall k :: 0 <= k < |header| ==> header[k].FormatTable? || header[k].MainDevice?
    ensures HandleAll(s, header) ==
            (if HasMain(header) then CheckReset(s) else s).
              (table := TableAfter(s.table, header), mainDev := MainAfter(s.mainDev, header))
  {
    if header != [] {
      var before, last := header[..|header| - 1], header[|header| - 1];
      HeaderDone(s, before);
      HasMainLast(before, last);
      assert header == before + [last];
    }
  }

  lemma HasFlagLast(events: seq<Event>, e: Event, flag: bv32)
    ensures HasFlag(events + [e], flag) <==> HasFlag(events, flag) || Raises(e, flag)
  {
    var more := events + [e];
    assert more[|events|] == e;
    if HasFlag(events, flag) {
      var k :| 0 <= k < |events| && Raises(events[k], flag);
      assert more[k] == events[k];
    }
    if HasFlag(more, flag) {
      var k :| 0 <= k < |more| && Raises(more[k], flag);
      assert k < |events| ==> more[k] == events[k];
    }
  }

  /** Filling the blank tmpTranche event by event gives the meaning of the events. */
  lemma FillMeans(events: seq<Event>, e: Event, table: seq<Entry>)
    requires InTranche(e)
    ensures Meaning(events + [e], table) == Fill(Meaning(events, table), e, table)
  {
    var more := events + [e];
    assert more[..|more| - 1] == events;
    match e {
      case TargetDevice(_) =>
      case TrancheFlags(_) =>
      case TrancheFormats(indices) =>
        AddAllGroups(EntriesOf(events, table));
        AddAllGroups(EntriesOf(more, table));
        AddAllJoin([], EntriesOf(events, table), InRange(indices, table));
    }
    HasFlagLast(events, e, TRANCHE_FLAGS_SCANOUT);
    HasFlagLast(events, e, TRANCHE_FLAGS_SAMPLING);
  }

  lemma {:induction false} TrancheFilled(s: State, events: seq<Event>)
    requires s.tmp == BLANK && TrancheShaped(events)
    ensures HandleAll(s, events) == CheckReset(s).(tmp := Meaning(events, s.table))
    decreases |events|
  {
    var before, last := events[..|events| - 1], events[|events| - 1];
    assert events == before + [last];
    if before == [] {
      assert Meaning(before, s.table) == BLANK;
    } else {
      TrancheFilled(s, before);
    }
    FillMeans(before, last, s.table);
  }

  lemma TrancheStored(s: State, events: seq<Event>)
    requires s.tmp == BLANK && TrancheShaped(events)
    ensures HandleAll(s, events + [TrancheDone]) ==
            CheckReset(s).(tranches := CheckReset(s).tranches + [Meaning(events, s.table)])
  {
    TrancheFilled(s, events);
    assert (events + [TrancheDone])[..|events + [TrancheDone]| - 1] == events;
  }

  lemma MeaningsLast(tranches: seq<seq<Event>>, table: seq<Entry>)
    requires tranches != []
    ensures Meanings(tranches, table) ==
            Meanings(tranches[..|tranches| - 1], table) + [Meaning(tranches[|tranches| - 1], table)]
  {
  }

  /** The state once some tranches of a round are stored. */
  function Stored(s: State, tranches: seq<seq<Event>>): State {
    if tranches == [] then s
    else CheckReset(s).(tranches := CheckReset(s).tranches + Meanings(tranches, s.table))
  }

  lemma StoredLast(s: State, tranches: seq<seq<Event>>)
    requires tranches != []
    ensures var before := Stored(s, tranches[..|tranches| - 1]);
      && before.tmp == s.tmp && before.table == s.table
      && Stored(s, tranches) ==
         CheckReset(before).(tranches := CheckReset(before).tranches + [Meaning(tranches[|tranches| - 1], s.table)])
  {
    var before := tranches[..|tranches| - 1];
    MeaningsLast(tranches, s.table);
    if before == [] {
      assert Meanings(before, s.table) == [];
    }
    assert CheckReset(Stored(s, before)).tranches == CheckReset(s).tranches + Meanings(before, s.table);
  }

  lemma OneMoreStored(s: State, tranches: seq<seq<Event>>)
    requires s.tmp == BLANK && tranches != [] && TrancheShaped(tranches[|tranches| - 1])
    ensures HandleAll(Stored(s, tranches[..|tranches| - 1]), tranches[|tranches| - 1] + [TrancheDone]) ==
            Stored(s, tranches)
  {
    TrancheStored(Stored(s, tranches[..|tranches| - 1]), tranches[|tranches| - 1]);
    StoredLast(s, tranches);
  }

  lemma {:induction false} TranchesStored(s: State, tranches: seq<seq<Event>>)
    requires s.tmp == BLANK
    requires forall i :: 0 <= i < |tranches| ==> TrancheShaped(tranches[i])
    ensures HandleAll(s, TranchesEvents(tranches)) == Stored(s, tranches)
    decreases |tranches|
  {
    if tranches != [] {
      var before, last := tranches[..|tranches| - 1], tranches[|tranches| - 1];
      TranchesStored(s, before);
      assert TranchesEvents(tranches) == TranchesEvents(before) + (last + [TrancheDone]);
      HandleAllJoin(s, TranchesEvents(before), last + [TrancheDone]);
      OneMoreStored(s, tranches);
    }
  }

  lemma RoundHandled(s: State, r: Round)
    requires Ready(s) && Shaped(r)
    ensures HandleAll(s, RoundEvents(r)) ==
            Handle(Stored(HandleAll(s, r.header), r.tranches), Done)
  {
    HeaderDone(s, r.header);
    TranchesStored(HandleAll(s, r.header), r.tranches);
    HandleAllJoin(s, r.header, TranchesEvents(r.tranches));
    HandleAllJoin(s, r.header + TranchesEvents(r.tranches), [Done]);
    assert [Done][..0] == [];
  }

  /** One round, from any state between rounds: the stored tranches are those of the round, unless it
      names no main device and has no tranche while an earlier round's are stored. */
  lemma RoundStoredIff(s: State, r: Round)
    requires Ready(s) && Shaped(r)
    ensures var after := HandleAll(s, RoundEvents(r));
      && (after.tranches == Meanings(r.tranches, TableAfter(s.table, r.header)) <==>
          HasMain(r.header) || r.tranches != [] || s.tranches == [])
      && after.table == TableAfter(s.table, r.header)
      && after.mainDev == MainAfter(s.mainDev, r.header)
      && Ready(after) && after.feedbackDone && after.unprocessed
  {
    RoundHandled(s, r);
    HeaderDone(s, r.header);
  }

  // ------------------------------------------------------------------ any number of rounds

  function RoundsEvents(rounds: seq<Round>): seq<Event> {
    if rounds == [] then [] else RoundsEvents(rounds[..|rounds| - 1]) + RoundEvents(rounds[|rounds| - 1])
  }

  /** The table in place after some rounds: the last one sent, in whichever round. */
  function TableOfRounds(rounds: seq<Round>): seq<Entry> {
    if rounds == [] then []
    else TableAfter(TableOfRounds(rounds[..|rounds| - 1]), rounds[|rounds| - 1].header)
  }

  /** A round as the protocol has it: it names the main device, which version 6 deprecates, or it has a
      tranche. */
  predicate Conforming(r: Round) {
    Shaped(r) && (HasMain(r.header) || r.tranches != [])
  }

  /** Whatever was sent before, what is stored after a round's done is that round, tranche by tranche. */
  lemma {:induction false} LatestRoundStored(rounds: seq<Round>)
    requires forall i :: 0 <= i < |rounds| ==> Conforming(rounds[i])
    ensures var s := HandleAll(FRESH, RoundsEvents(rounds));
      && Ready(s) && s.table == TableOfRounds(rounds)
      && s.tranches == (if rounds == [] then [] else Meanings(rounds[|rounds| - 1].tranches, TableOfRounds(rounds)))
    decreases |rounds|
  {
    if rounds != [] {
      var before, last := rounds[..|rounds| - 1], rounds[|rounds| - 1];
      LatestRoundStored(before);
      HandleAllJoin(FRESH, RoundsEvents(before), RoundEvents(last));
      RoundStoredIff(HandleAll(FRESH, RoundsEvents(before)), last);
    }
  }

  /** Wherever a header or a whole tranche ends, tmpTranche is blank. */
  lemma BlankBetweenTranches(rounds: seq<Round>, r: Round)
    requires forall i :: 0 <= i < |rounds| ==> Conforming(rounds[i])
    requires Shaped(r)
    ensures var s := HandleAll(FRESH, RoundsEvents(rounds) + r.header + TranchesEvents(r.tranches));
      s.tmp == BLANK
  {
    LatestRoundStored(rounds);
    var s := HandleAll(FRESH, RoundsEvents(rounds));
    HandleAllJoin(FRESH, RoundsEvents(rounds) + r.header, TranchesEvents(r.tranches));
    HandleAllJoin(FRESH, RoundsEvents(rounds), r.header);
    HeaderDone(s, r.header);
    TranchesStored(HandleAll(s, r.header), r.tranches);
  }

  /** If the next checked event performs the reset, tmpTranche holds nothing that the reset would free. */
  predicate ResetSafe(s: State) {
    s.feedbackDone ==> s.tmp == BLANK
  }

  predicate NoDone(events: seq<Event>) {
    forall k :: 0 <= k < |events| ==> !events[k].Done?
  }

  lemma {:induction false} NoDoneKeepsSafe(s: State, events: seq<Event>)
    requires ResetSafe(s) && NoDone(events)
    ensures ResetSafe(HandleAll(s, events))
  {
    if events != [] {
      NoDoneKeepsSafe(s, events[..|events| - 1]);
    }
  }

  lemma {:induction false} TranchesNoDone(tranches: seq<seq<Event>>)
    requires forall i :: 0 <= i < |tranches| ==> TrancheShaped(tranches[i])
    ensures NoDone(TranchesEvents(tranches))
  {
    if tranches != [] {
      TranchesNoDone(tranches[..|tranches| - 1]);
    }
  }

  /** A round has no done before its last event. */
  lemma RoundNoDone(r: Round, events: seq<Event>)
    requires Shaped(r) && events <= RoundEvents(r) && events != RoundEvents(r)
    ensures NoDone(events)
  {
    TranchesNoDone(r.tranches);
    var body := r.header + TranchesEvents(r.tranches);
    assert events <= body;
    forall k | 0 <= k < |events|
      ensures !events[k].Done?
    {
      assert events[k] == body[k];
    }
  }

  /** No reset frees formats that are still in use: at every point of every sequence of rounds, in the middle of
      a tranche too, a reset is due only while tmpTranche is blank. */
  lemma {:induction false} ResetFindsBlank(rounds: seq<Round>, events: seq<Event>)
    requires forall i :: 0 <= i < |rounds| ==> Conforming(rounds[i])
    requires events <= RoundsEvents(rounds)
    ensures ResetSafe(HandleAll(FRESH, events))
    decreases |rounds|
  {
    if rounds == [] {
      assert events == [];
    } else {
      var before, last := rounds[..|rounds| - 1], rounds[|rounds| - 1];
      var start := RoundsEvents(before);
      if |events| <= |start| {
        assert events <= start;
        ResetFindsBlank(before, events);
      } else {
        var rest := events[|start|..];
        assert events == start + rest && rest <= RoundEvents(last);
        LatestRoundStored(before);
        HandleAllJoin(FRESH, start, rest);
        if rest == RoundEvents(last) {
          RoundStoredIff(HandleAll(FRESH, start), last);
        } else {
          RoundNoDone(last, rest);
          NoDoneKeepsSafe(HandleAll(FRESH, start), rest);
        }
      }
    }
  }

  // ------------------------------------------------------------------ from events to contents

  /** The format table in force after some events, said of the events alone: the last one sent, which is empty if
      it could not be mapped, or none. */
  predicate TableInForce(events: seq<Event>, table: seq<Entry>) {
    || (table == [] && forall k :: 0 <= k < |events| ==> !events[k].FormatTable?)
    || exists k :: 0 <= k < |events| && LastTableAt(events, table, k)
  }

  predicate LastTableAt(events: seq<Event>, table: seq<Entry>, k: nat) {
    && k < |events|
    && (events[k] == FormatTable(Some(table)) || (events[k] == FormatTable(None) && table == []))
    && forall j :: k < j < |events| ==> !events[j].FormatTable?
  }

  lemma TableInForceMore(events: seq<Event>, table: seq<Entry>, e: Event)
    requires TableInForce(events, table)
    ensures !e.FormatTable? ==> TableInForce(events + [e], table)
    ensures e.FormatTable? && e.table.Some? ==> TableInForce(events + [e], e.table.value)
    ensures e.FormatTable? && e.table.None? ==> TableInForce(events + [e], [])
  {
    var more := events + [e];
    if e.FormatTable? {
      assert LastTableAt(more, if e.table.Some? then e.table.value else [], |events|);
    } else if k :| 0 <= k < |events| && LastTableAt(events, table, k) {
      assert LastTableAt(more, table, k);
    }
  }

  /** Whatever events arrive, in whatever order, the table a feedback object holds is the one in force. */
  lemma {:induction false} TableStored(events: seq<Event>)
    ensures TableInForce(events, HandleAll(FRESH, events).table)
  {
    if events != [] {
      var before, e := events[..|events| - 1], events[|events| - 1];
      TableStored(before);
      TableInForceMore(before, HandleAll(FRESH, before).table, e);
      assert events == before + [e];
    }
  }

  predicate NamesIndex(events: seq<Event>, index: nat) {
    exists k :: 0 <= k < |events| && events[k].TrancheFormats? && index in events[k].indices
  }

  /** A tranche names an entry: some index it lists lies in the table and selects that entry. */
  predicate Names(events: seq<Event>, table: seq<Entry>, e: Entry) {
    exists index :: 0 <= index < |table| && NamesIndex(events, index) && table[index] == e
  }

  lemma {:induction false} InRangeSelects(indices: seq<nat>, table: seq<Entry>, e: Entry)
    ensures e in InRange(indices, table) <==>
      exists index :: 0 <= index < |table| && index in indices && table[index] == e
  {
    if indices != [] {
      var before, last := indices[..|indices| - 1], indices[|indices| - 1];
      InRangeSelects(before, table, e);
      assert indices == before + [last];
    }
  }

  lemma NamesMore(events: seq<Event>, last: Event, table: seq<Entry>, e: Entry)
    ensures Names(events + [last], table, e) <==>
      Names(events, table, e) || (last.TrancheFormats? && e in InRange(last.indices, table))
  {
    var more := events + [last];
    assert more[|events|] == last;
    if last.TrancheFormats? {
      InRangeSelects(last.indices, table, e);
    }
    forall index
      ensures NamesIndex(more, index) <==> NamesIndex(events, index) || (last.TrancheFormats? && index in last.indices)
    {
      if k :| 0 <= k < |events| && events[k].TrancheFormats? && index in events[k].indices {
        assert more[k] == events[k];
      }
    }
  }

  lemma {:induction false} EntriesNamed(events: seq<Event>, table: seq<Entry>, e: Entry)
    ensures e in EntriesOf(events, table) <==> Names(events, table, e)
  {
    if events != [] {
      var before, last := events[..|events| - 1], events[|events| - 1];
      EntriesNamed(before, table, e);
      NamesMore(before, last, table, e);
      assert events == before + [last];
    }
  }

  predicate Raised(events: seq<Event>, flag: bv32) {
    exists k :: 0 <= k < |events| && events[k].TrancheFlags? && events[k].flags & flag != 0
  }

  /** From events to contents: after any conforming rounds each stored tranche is its events' tranche of the
      latest round, with the scanout and sampling flags raised there, and it holds a format with a modifier if
      and only if an index listed there lies in the format table in force and selects that entry. */
  lemma TrancheContents(rounds: seq<Round>, i: nat, format: nat, modifier: nat)
    requires rounds != [] && forall k :: 0 <= k < |rounds| ==> Conforming(rounds[k])
    requires i < |rounds[|rounds| - 1].tranches|
    ensures var s := HandleAll(FRESH, RoundsEvents(rounds));
      var events := rounds[|rounds| - 1].tranches[i];
      && |s.tranches| == |rounds[|rounds| - 1].tranches|
      && TableInForce(RoundsEvents(rounds), s.table)
      && (modifier in Lookup(s.tranches[i].formats, format) <==> Names(events, s.table, Entry(format, modifier)))
      && (s.tranches[i].scanout <==> Raised(events, 1))
      && (s.tranches[i].sampling <==> Raised(events, 2))
  {
    var events, table := rounds[|rounds| - 1].tranches[i], TableOfRounds(rounds);
    LatestRoundStored(rounds);
    TableStored(RoundsEvents(rounds));
    EntriesNamed(events, table, Entry(format, modifier));
    AddAllGroups(EntriesOf(events, table));
    SetContents(EntriesOf(events, table), format);
    FlagsRaised(events);
  }

  lemma FlagsRaised(events: seq<Event>)
    ensures HasFlag(events, TRANCHE_FLAGS_SCANOUT) <==> Raised(events, 1)
    ensures HasFlag(events, TRANCHE_FLAGS_SAMPLING) <==> Raised(events, 2)
  {
    forall k, flag: bv32 | 0 <= k < |events|
      ensures Raises(events[k], flag) <==> events[k].TrancheFlags? && events[k].flags & flag != 0
    {}
  }

  /** A round without main device and tranches keeps the tranches of the round before. */
  lemma BareRoundKeepsTranches()
    ensures var first, bare := Round([MainDevice(1)], [[TargetDevice(1)]]), Round([], []);
      && Shaped(bare) && Meanings(bare.tranches, []) == []
      && HandleAll(HandleAll(FRESH, RoundEvents(first)), RoundEvents(bare)).tranches != []
  {
    var first, bare := Round([MainDevice(1)], [[TargetDevice(1)]]), Round([], []);
    assert TrancheShaped([TargetDevice(1)]);
    assert first.header[0].MainDevice?;
    RoundStoredIff(FRESH, first);
    RoundStoredIff(HandleAll(FRESH, RoundEvents(first)), bare);
  }
}
