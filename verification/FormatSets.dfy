/**
 Sets of DRM formats, each with the list of its modifiers, grown one pair at a time.
 */
module FormatSets {
  import opened Seqs

  /** WlEglDmaBufFormat: a format and the modifiers it was advertised with. */
  datatype Format = Format(format: nat, modifiers: seq<nat>)

  /** One advertised (format, modifier) pair, the content of a format-table entry. */
  datatype Entry = Entry(format: nat, modifier: nat)

  // ------------------------------------------------------------------ one addition

  /** Where a format stands in the set, or the set's length. */
  function Find(formats: seq<Format>, format: nat): (i: nat)
    ensures i <= |formats|
    ensures i < |formats| ==> formats[i].format == format
    ensures forall j :: 0 <= j < i ==> formats[j].format != format
  {
    if formats == [] then 0
    else if formats[0].format == format then 0
    else 1 + Find(formats[1..], format)
  }

  function WithModifier(modifiers: seq<nat>, modifier: nat): seq<nat> {
    if modifier in modifiers then modifiers else modifiers + [modifier]
  }

  function Added(formats: seq<Format>, e: Entry): seq<Format> {
    var i := Find(formats, e.format);
    if i < |formats| then formats[i := formats[i].(modifiers := WithModifier(formats[i].modifiers, e.modifier))]
    else formats + [Format(e.format, [e.modifier])]
  }

  /** The entries added in order. */
  function AddAll(formats: seq<Format>, entries: seq<Entry>): seq<Format> {
    if entries == [] then formats
    else Added(AddAll(formats, entries[..|entries| - 1]), entries[|entries| - 1])
  }

  // ------------------------------------------------------------------ in place

  /** WlEglDmaBufFormatSet. */
  class FormatSet {
    var formats: seq<Format>

    constructor ()
      ensures formats == []
    {
      formats := [];
    }

    /** wlEglDmaBufFormatAddModifier on the format at an index. */
    method AddModifier(f: nat, modifier: nat)
      requires f < |formats|
      modifies this
      ensures formats ==
        old(formats)[f := old(formats)[f].(modifiers := WithModifier(old(formats)[f].modifiers, modifier))]
    {
      var m := 0;
      while m < |formats[f].modifiers|
        invariant 0 <= m <= |formats[f].modifiers| && formats == old(formats)
        invariant modifier !in formats[f].modifiers[..m]
      {
        if formats[f].modifiers[m] == modifier {
          assert formats == old(formats)[f := old(formats)[f]];
          return;
        }
        m := m + 1;
      }
      assert formats[f].modifiers[..m] == formats[f].modifiers;
      formats := formats[f := formats[f].(modifiers := formats[f].modifiers + [modifier])];
    }

    /** wlEglFormatSetAdd. */
    method Add(e: Entry)
      modifies this
      ensures formats == Added(old(formats), e)
    {
      var f := 0;
      while f < |formats|
        invariant 0 <= f <= |formats| && formats == old(formats)
        invariant forall j :: 0 <= j < f ==> formats[j].format != e.format
      {
        if formats[f].format == e.format {
          FindIs(formats, e.format, f);
          AddModifier(f, e.modifier);
          return;
        }
        f := f + 1;
      }
      FindIs(formats, e.format, f);
      formats := formats + [Format(e.format, [])];
      AddModifier(|formats| - 1, e.modifier);
      assert [] + [e.modifier] == [e.modifier];
      assert formats == old(formats) + [Format(e.format, [e.modifier])];
    }
  }

  lemma FindIs(formats: seq<Format>, format: nat, i: nat)
    requires i <= |formats| && (i < |formats| ==> formats[i].format == format)
    requires forall j :: 0 <= j < i ==> formats[j].format != format
    ensures Find(formats, format) == i
  {}

  // ------------------------------------------------------------------ what a set holds

  /** A list without later repetitions. */
  function FirstSeen(s: seq<nat>): (r: seq<nat>)
    ensures Distinct(r)
    ensures forall x :: x in r <==> x in s
  {
    if s == [] then []
    else
      var before, last := FirstSeen(s[..|s| - 1]), s[|s| - 1];
      assert s == s[..|s| - 1] + [last];
      if last in before then before else before + [last]
  }

  /** The formats of a list of entries, in order. */
  function FormatsOf(entries: seq<Entry>): (r: seq<nat>)
    ensures |r| == |entries|
    ensures forall k :: 0 <= k < |r| ==> r[k] == entries[k].format
  {
    seq(|entries|, k requires 0 <= k < |entries| => entries[k].format)
  }

  /** The modifiers a format comes with in a list of entries, in order. */
  function ModifiersOf(entries: seq<Entry>, format: nat): (r: seq<nat>)
    ensures forall m :: m in r <==> Entry(format, m) in entries
  {
    if entries == [] then []
    else
      var before, last := ModifiersOf(entries[..|entries| - 1], format), entries[|entries| - 1];
      assert entries == entries[..|entries| - 1] + [last];
      if last.format == format then before + [last.modifier] else before
  }

  function GroupOf(entries: seq<Entry>, format: nat): Format {
    Format(format, FirstSeen(ModifiersOf(entries, format)))
  }

  function GroupAll(entries: seq<Entry>, formats: seq<nat>): (r: seq<Format>)
    ensures |r| == |formats|
    ensures forall k :: 0 <= k < |r| ==> r[k] == GroupOf(entries, formats[k])
  {
    seq(|formats|, k requires 0 <= k < |formats| => GroupOf(entries, formats[k]))
  }

  /** The set a list of entries stands for: each format once, in the order of first mention, with each of
      its modifiers once, in the order of first mention. */
  function Grouped(entries: seq<Entry>): (r: seq<Format>)
    ensures |r| == |FirstSeen(FormatsOf(entries))|
    ensures forall k :: 0 <= k < |r| ==>
      r[k] == GroupOf(entries, FirstSeen(FormatsOf(entries))[k])
  {
    GroupAll(entries, FirstSeen(FormatsOf(entries)))
  }

  /** A format no entry mentions has no modifiers; one that some entry mentions is in the list. */
  lemma MentionedOrNot(entries: seq<Entry>, format: nat)
    ensures format in FormatsOf(entries) <==> exists m :: Entry(format, m) in entries
    ensures format !in FormatsOf(entries) ==> ModifiersOf(entries, format) == []
  {
    forall m | Entry(format, m) in entries
      ensures format in FormatsOf(entries)
    {
      var n :| 0 <= n < |entries| && entries[n] == Entry(format, m);
      assert FormatsOf(entries)[n] == format;
    }
    if format in FormatsOf(entries) {
      var n :| 0 <= n < |entries| && FormatsOf(entries)[n] == format;
      assert entries[n] == Entry(format, entries[n].modifier);
    }
    FirstIsIn(ModifiersOf(entries, format));
  }

  /** The formats of a grouped list, and where one of them stands. */
  lemma GroupedFind(entries: seq<Entry>, format: nat)
    ensures var seen, i := FirstSeen(FormatsOf(entries)), Find(Grouped(entries), format);
      && (i < |seen| <==> format in seen)
      && (i < |seen| ==> seen[i] == format)
  {
    var seen, g := FirstSeen(FormatsOf(entries)), Grouped(entries);
    forall k | 0 <= k < |seen|
      ensures g[k].format == seen[k]
    {}
  }

  lemma OneMore(entries: seq<Entry>, e: Entry)
    ensures var more := entries + [e];
      && FirstSeen(FormatsOf(more)) == WithModifier(FirstSeen(FormatsOf(entries)), e.format)
      && (forall f :: FirstSeen(ModifiersOf(more, f)) ==
                      if f == e.format then WithModifier(FirstSeen(ModifiersOf(entries, f)), e.modifier)
                      else FirstSeen(ModifiersOf(entries, f)))
  {
    var more := entries + [e];
    assert more[..|more| - 1] == entries;
    assert FormatsOf(more)[..|more| - 1] == FormatsOf(entries);
    var ms := ModifiersOf(entries, e.format);
    assert (ms + [e.modifier])[..|ms + [e.modifier]| - 1] == ms;
  }

  lemma GroupedAddKnown(entries: seq<Entry>, e: Entry)
    requires e.format in FirstSeen(FormatsOf(entries))
    ensures Grouped(entries + [e]) == Added(Grouped(entries), e)
  {
    OneMore(entries, e);
    GroupedFind(entries, e.format);
    var more, g, seen := entries + [e], Grouped(entries), FirstSeen(FormatsOf(entries));
    var i := Find(g, e.format);
    forall k | 0 <= k < |g|
      ensures Grouped(more)[k] == Added(g, e)[k]
    {
      assert k != i ==> seen[k] != e.format;
    }
  }

  lemma NewGroup(entries: seq<Entry>, e: Entry)
    requires e.format !in FirstSeen(FormatsOf(entries))
    ensures GroupOf(entries + [e], e.format) == Format(e.format, [e.modifier])
  {
    OneMore(entries, e);
    MentionedOrNot(entries, e.format);
  }

  lemma OldGroups(entries: seq<Entry>, e: Entry)
    requires e.format !in FirstSeen(FormatsOf(entries))
    ensures forall f :: f in FirstSeen(FormatsOf(entries)) ==> GroupOf(entries + [e], f) == GroupOf(entries, f)
  {
    OneMore(entries, e);
  }

  lemma GroupAllSame(a: seq<Entry>, b: seq<Entry>, formats: seq<nat>)
    requires forall k :: 0 <= k < |formats| ==> GroupOf(a, formats[k]) == GroupOf(b, formats[k])
    ensures GroupAll(a, formats) == GroupAll(b, formats)
  {}

  lemma GroupAllLast(entries: seq<Entry>, formats: seq<nat>, f: nat)
    ensures GroupAll(entries, formats + [f]) == GroupAll(entries, formats) + [GroupOf(entries, f)]
  {}

  lemma GroupedAddNew(entries: seq<Entry>, e: Entry)
    requires e.format !in FirstSeen(FormatsOf(entries))
    ensures Grouped(entries + [e]) == Added(Grouped(entries), e)
  {
    var seen := FirstSeen(FormatsOf(entries));
    assert FirstSeen(FormatsOf(entries + [e])) == seen + [e.format] by { OneMore(entries, e); }
    GroupAllLast(entries + [e], seen, e.format);
    assert GroupAll(entries + [e], seen) == GroupAll(entries, seen) by {
      OldGroups(entries, e);
      GroupAllSame(entries + [e], entries, seen);
    }
    NewGroup(entries, e);
    GroupedFind(entries, e.format);
  }

  lemma GroupedAdd(entries: seq<Entry>, e: Entry)
    ensures Grouped(entries + [e]) == Added(Grouped(entries), e)
  {
    if e.format in FirstSeen(FormatsOf(entries)) {
      GroupedAddKnown(entries, e);
    } else {
      GroupedAddNew(entries, e);
    }
  }

  /** Entries added one at a time to an empty set give exactly the set the whole list stands for. */
  lemma {:induction false} AddAllGroups(entries: seq<Entry>)
    ensures AddAll([], entries) == Grouped(entries)
  {
    if entries != [] {
      var before, e := entries[..|entries| - 1], entries[|entries| - 1];
      AddAllGroups(before);
      GroupedAdd(before, e);
      assert entries == before + [e];
    }
  }

  lemma {:induction false} AddAllJoin(formats: seq<Format>, a: seq<Entry>, b: seq<Entry>)
    ensures AddAll(formats, a + b) == AddAll(AddAll(formats, a), b)
  {
    if b == [] {
      assert a + b == a;
    } else {
      AddAllJoin(formats, a, b[..|b| - 1]);
      assert (a + b)[..|a + b| - 1] == a + b[..|b| - 1];
    }
  }

  // ------------------------------------------------------------------ lookups

  predicate Holds(formats: seq<Format>, format: nat) {
    exists k :: 0 <= k < |formats| && formats[k].format == format
  }

  /** The modifiers a set lists for a format. */
  function Lookup(formats: seq<Format>, format: nat): seq<nat> {
    var i := Find(formats, format);
    if i < |formats| then formats[i].modifiers else []
  }

  /** A set built by any additions keeps its formats distinct, and each format's modifiers. */
  lemma SetStaysDistinct(entries: seq<Entry>)
    ensures var formats := AddAll([], entries);
      && (forall i, j :: 0 <= i < j < |formats| ==> formats[i].format != formats[j].format)
      && (forall i :: 0 <= i < |formats| ==> Distinct(formats[i].modifiers))
  {
    AddAllGroups(entries);
    var formats, seen := Grouped(entries), FirstSeen(FormatsOf(entries));
    forall i, j | 0 <= i < j < |formats|
      ensures formats[i].format != formats[j].format
    {
      assert seen[i] != seen[j];
    }
  }

  /** It holds exactly the pairs added: for every format, the modifiers it was added with, in the order
      they first came. */
  lemma SetContents(entries: seq<Entry>, format: nat)
    ensures var formats := AddAll([], entries);
      && (Holds(formats, format) <==> exists m :: Entry(format, m) in entries)
      && Lookup(formats, format) == FirstSeen(ModifiersOf(entries, format))
      && (forall m :: m in Lookup(formats, format) <==> Entry(format, m) in entries)
  {
    AddAllGroups(entries);
    GroupedFind(entries, format);
    MentionedOrNot(entries, format);
    var formats := Grouped(entries);
    var i := Find(formats, format);
    assert Holds(formats, format) <==> i < |formats|;
  }
}
