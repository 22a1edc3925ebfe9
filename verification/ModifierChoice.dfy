/**
 What a surface takes from the feedback: the modifiers its stream is created with, and whether it
 renders for another device (PRIME).
 */
module ModifierChoice {
  import opened Seqs
  import opened FormatSets
  import opened DmabufFeedback

  const DRM_FORMAT_MOD_LINEAR: nat := 0

  /** The render node and the primary node of the device the display renders with. */
  datatype Device = Device(dev: nat, renderNode: nat)

  predicate Matches(t: Tranche, dev: nat, format: nat) {
    t.dev == dev && Holds(t.formats, format)
  }

  /** WlEglGetFormatSetForDev: the first tranche of the device that holds the format. */
  method GetFormatSetForDev(tranches: seq<Tranche>, dev: nat, format: nat) returns (found: Option<seq<Format>>)
    ensures found == FormatSetFor(tranches, dev, format)
  {
    var i := 0;
    while i < |tranches|
      invariant 0 <= i <= |tranches|
      invariant forall k :: 0 <= k < i ==> !Matches(tranches[k], dev, format)
    {
      if tranches[i].dev == dev {
        var formats := tranches[i].formats;
        var j := 0;
        while j < |formats|
          invariant 0 <= j <= |formats|
          invariant forall k :: 0 <= k < j ==> formats[k].format != format
        {
          if formats[j].format == format {
            assert Matches(tranches[i], dev, format);
            FirstMatchIs(tranches, dev, format, i);
            return Some(formats);
          }
          j := j + 1;
        }
      }
      i := i + 1;
    }
    FirstMatchIs(tranches, dev, format, i);
    return None;
  }

  function FirstMatch(tranches: seq<Tranche>, dev: nat, format: nat): (i: nat)
    ensures i <= |tranches|
    ensures i < |tranches| ==> Matches(tranches[i], dev, format)
    ensures forall k :: 0 <= k < i ==> !Matches(tranches[k], dev, format)
  {
    if tranches == [] then 0
    else if Matches(tranches[0], dev, format) then 0
    else 1 + FirstMatch(tranches[1..], dev, format)
  }

  function FormatSetFor(tranches: seq<Tranche>, dev: nat, format: nat): Option<seq<Format>> {
    var i := FirstMatch(tranches, dev, format);
    if i < |tranches| then Some(tranches[i].formats) else None
  }

  lemma FirstMatchIs(tranches: seq<Tranche>, dev: nat, format: nat, i: nat)
    requires i <= |tranches| && (i < |tranches| ==> Matches(tranches[i], dev, format))
    requires forall k :: 0 <= k < i ==> !Matches(tranches[k], dev, format)
    ensures FirstMatch(tranches, dev, format) == i
  {
  }

  // ------------------------------------------------------------------ PRIME

  predicate OwnDevice(device: Device, dev: nat) {
    dev == device.dev || dev == device.renderNode
  }

  /** The compositor samples from this device. */
  predicate CanSample(tranches: seq<Tranche>, device: Device) {
    exists i :: 0 <= i < |tranches| && tranches[i].sampling && OwnDevice(device, tranches[i].dev)
  }

  /** The first device a sampling tranche names, 0 standing for no device. */
  function FirstSampling(tranches: seq<Tranche>): nat {
    if tranches == [] then 0
    else
      var before, last := FirstSampling(tranches[..|tranches| - 1]), tranches[|tranches| - 1];
      if before == 0 && last.sampling then last.dev else before
  }

  datatype Prime = Prime(offload: bool, samplingDevice: nat)

  /** The decision from sampling tranches; without a device to sample from, the state stays. */
  function Decide(state: Prime, tranches: seq<Tranche>, device: Device): Prime {
    if CanSample(tranches, device) then Prime(false, 0)
    else if FirstSampling(tranches) != 0 then Prime(true, FirstSampling(tranches))
    else state
  }

  datatype Selected = BadAccess | Modifiers(list: seq<nat>)

  /** The display-wide facts a surface consults. */
  datatype DisplayFacts = DisplayFacts(
    version: nat,               // dmaBufProtocolVersion
    device: Device,
    primeRenderOffload: bool,   // found by comparing devices
    formatSet: seq<Format>,     // filled before version 4
    defaultTranches: seq<Tranche>)

  /** The modifiers a stream of a surface gets: `format` is None without an EGLConfig, and 0 if the config
      has no DRM format; `tranches` is the surface's own feedback if it has any. */
  function Choice(d: DisplayFacts, tranches: Option<seq<Tranche>>, prime: bool, format: Option<nat>): Selected {
    match format
    case None => Modifiers([])
    case Some(format) =>
      if format == 0 then BadAccess
      else if prime then Modifiers([DRM_FORMAT_MOD_LINEAR])
      else if d.version < 4 then Modifiers(Lookup(d.formatSet, format))
      else
        var used := if tranches.Some? then tranches.value else d.defaultTranches;
        match FormatSetFor(used, d.device.dev, format)
        case Some(formats) => Modifiers(Lookup(formats, format))
        case None =>
          match FormatSetFor(used, d.device.renderNode, format)
          case Some(formats) => Modifiers(Lookup(formats, format))
          case None => Modifiers([])
  }

  /** The part of WlEglSurface that the feedback steers. */
  class Surface {
    var primeRenderOffload: bool
    var primeSamplingDevice: nat
    var feedback: Option<seq<Tranche>>

    ghost function PrimeState(): Prime
      reads this
    {
      Prime(primeRenderOffload, primeSamplingDevice)
    }

    function Tranches(): seq<Tranche>
      reads this
    {
      if feedback.Some? then feedback.value else []
    }

    /** wlEglUpdateSurfacePrimeState. */
    method UpdatePrimeState(d: DisplayFacts)
      modifies this`primeRenderOffload, this`primeSamplingDevice
      ensures PrimeState() ==
              if d.version < 6 then Prime(d.primeRenderOffload, 0)
              else Decide(old(PrimeState()), Tranches(), d.device)
    {
      if d.version < 6 {
        primeRenderOffload, primeSamplingDevice := d.primeRenderOffload, 0;
        return;
      }
      var tranches := Tranches();
      var firstSampling, canSample := 0, false;
      var i := 0;
      while i < |tranches|
        invariant 0 <= i <= |tranches|
        invariant firstSampling == FirstSampling(tranches[..i])
        invariant !canSample && !CanSample(tranches[..i], d.device)
      {
        assert tranches[..i + 1][..|tranches[..i + 1]| - 1] == tranches[..i];
        if tranches[i].sampling {
          if firstSampling == 0 {
            firstSampling := tranches[i].dev;
          }
          if OwnDevice(d.device, tranches[i].dev) {
            canSample := true;
            break;
          }
        }
        i := i + 1;
      }
      if canSample {
        assert CanSample(tranches, d.device);
        primeRenderOffload, primeSamplingDevice := false, 0;
      } else {
        assert tranches[..i] == tranches;
        if firstSampling != 0 {
          primeRenderOffload, primeSamplingDevice := true, firstSampling;
        }
      }
    }

    /** The choice of modifiers in create_surface_stream_local. */
    method ChooseModifiers(d: DisplayFacts, drmFormat: Option<nat>) returns (selected: Selected)
      ensures selected == Choice(d, feedback, primeRenderOffload, drmFormat)
      ensures drmFormat == None ==> selected == Modifiers([])
      ensures drmFormat == Some(0) ==> selected == BadAccess
      ensures primeRenderOffload && drmFormat.Some? && drmFormat.value != 0 ==> selected == Modifiers([0])
    {
      selected := Modifiers([]);
      if drmFormat.Some? {
        var format := drmFormat.value;
        if format == 0 {
          return BadAccess;
        }
        var formatSet: Option<seq<Format>> := None;
        if d.version < 4 {
          formatSet := Some(d.formatSet);
        } else {
          var tranches := if feedback.Some? then feedback.value else d.defaultTranches;
          formatSet := GetFormatSetForDev(tranches, d.device.dev, format);
          if formatSet.None? {
            formatSet := GetFormatSetForDev(tranches, d.device.renderNode, format);
          }
        }
        if primeRenderOffload {
          selected := Modifiers([DRM_FORMAT_MOD_LINEAR]);
        } else if formatSet.Some? {
          var formats := formatSet.value;
          var i := 0;
          while i < |formats|
            invariant 0 <= i <= |formats|
            invariant forall k :: 0 <= k < i ==> formats[k].format != format
            invariant selected == Modifiers([])
          {
            if formats[i].format == format {
              FindIs(formats, format, i);
              selected := Modifiers(formats[i].modifiers);
              return;
            }
            i := i + 1;
          }
          FindIs(formats, format, i);
        }
      }
    }
  }

  // ------------------------------------------------------------------ from the compositor's words to the choice

  /** A tranche of a round is for a device and names a format of the table. */
  predicate Offers(events: seq<Event>, table: seq<Entry>, dev: nat, format: nat) {
    DeviceOf(events) == dev && format in FormatsOf(EntriesOf(events, table))
  }

  /** The modifiers the first tranche that offers the format for the device gives it, in its order. */
  function Offer(tranches: seq<seq<Event>>, table: seq<Entry>, dev: nat, format: nat): Option<seq<nat>> {
    if tranches == [] then None
    else if Offers(tranches[0], table, dev, format)
    then Some(FirstSeen(ModifiersOf(EntriesOf(tranches[0], table), format)))
    else Offer(tranches[1..], table, dev, format)
  }

  lemma OfferIsMatch(events: seq<Event>, table: seq<Entry>, dev: nat, format: nat)
    ensures Matches(Meaning(events, table), dev, format) <==> Offers(events, table, dev, format)
    ensures Lookup(Meaning(events, table).formats, format) == FirstSeen(ModifiersOf(EntriesOf(events, table), format))
  {
    var entries := EntriesOf(events, table);
    AddAllGroups(entries);
    SetContents(entries, format);
    MentionedOrNot(entries, format);
  }

  /** Looking a format set up in stored tranches and a format in that set finds the round's offer. */
  lemma {:induction false} LookupFindsOffer(tranches: seq<seq<Event>>, table: seq<Entry>, dev: nat, format: nat)
    ensures var found := FormatSetFor(Meanings(tranches, table), dev, format);
      Offer(tranches, table, dev, format) ==
      match found { case None => None case Some(formats) => Some(Lookup(formats, format)) }
  {
    if tranches != [] {
      var stored := Meanings(tranches, table);
      OfferIsMatch(tranches[0], table, dev, format);
      LookupFindsOffer(tranches[1..], table, dev, format);
      assert stored[1..] == Meanings(tranches[1..], table);
      assert stored[0] == Meaning(tranches[0], table);
    }
  }

  /** What a round offers a device: for its primary node, or else for its render node. */
  function OfferFor(tranches: seq<seq<Event>>, table: seq<Entry>, device: Device, format: nat): seq<nat> {
    match Offer(tranches, table, device.dev, format)
    case Some(modifiers) => modifiers
    case None =>
      match Offer(tranches, table, device.renderNode, format)
      case Some(modifiers) => modifiers
      case None => []
  }

  /** From version 4 on, with feedback from any conforming rounds, the stream of a surface that renders for its
      own device gets exactly what the latest round offers the device.  The feedback is the surface's own, or
      the display's if the surface has none. */
  lemma ChoiceFollowsLatestRound(d: DisplayFacts, own: bool, rounds: seq<Round>, format: nat)
    requires d.version >= 4 && format != 0
    requires rounds != [] && forall i :: 0 <= i < |rounds| ==> Conforming(rounds[i])
    requires !own ==> d.defaultTranches == HandleAll(FRESH, RoundsEvents(rounds)).tranches
    ensures var stored := HandleAll(FRESH, RoundsEvents(rounds)).tranches;
      Choice(d, if own then Some(stored) else None, false, Some(format)) ==
      Modifiers(OfferFor(rounds[|rounds| - 1].tranches, TableOfRounds(rounds), d.device, format))
  {
    var latest, table := rounds[|rounds| - 1].tranches, TableOfRounds(rounds);
    LatestRoundStored(rounds);
    LookupFindsOffer(latest, table, d.device.dev, format);
    LookupFindsOffer(latest, table, d.device.renderNode, format);
  }

  /** Before version 4 the stream gets exactly the modifiers the compositor announced for the format, each once
      and in the order of their events, whatever the surface's feedback. */
  lemma ChoiceFollowsAnnouncements(d: DisplayFacts, tranches: Option<seq<Tranche>>, announced: seq<Entry>, format: nat)
    requires d.version < 4 && format != 0 && d.formatSet == AddAll([], announced)
    ensures Choice(d, tranches, false, Some(format)) == Modifiers(FirstSeen(ModifiersOf(announced, format)))
  {
    SetContents(announced, format);
  }

  predicate Samples(events: seq<Event>) {
    HasFlag(events, TRANCHE_FLAGS_SAMPLING)
  }

  /** A sampling tranche of the latest round names one of the devices. */
  predicate SampledFrom(tranches: seq<seq<Event>>, device: Device) {
    exists i :: 0 <= i < |tranches| && Samples(tranches[i]) && DeviceOf(tranches[i]) in {device.dev, device.renderNode}
  }

  /** The device a surface should render for: the first one a sampling tranche names. */
  lemma {:induction false} FirstSamplingNamed(tranches: seq<Tranche>)
    ensures var first := FirstSampling(tranches);
      if first == 0 then forall i :: 0 <= i < |tranches| && tranches[i].sampling ==> tranches[i].dev == 0
      else exists i :: 0 <= i < |tranches| && tranches[i].sampling && tranches[i].dev == first
             && forall j :: 0 <= j < i && tranches[j].sampling ==> tranches[j].dev == 0
  {
    if tranches != [] {
      var before, last := tranches[..|tranches| - 1], |tranches| - 1;
      FirstSamplingNamed(before);
      if FirstSampling(before) != 0 {
        var i :| 0 <= i < |before| && before[i].sampling && before[i].dev == FirstSampling(before)
          && forall j :: 0 <= j < i && before[j].sampling ==> before[j].dev == 0;
        assert tranches[i] == before[i];
        assert forall j :: 0 <= j < i ==> tranches[j] == before[j];
      } else {
        assert forall j :: 0 <= j < last ==> tranches[j] == before[j];
      }
    }
  }

  /** After conforming rounds the surface offloads exactly if the latest round has sampling tranches for
      other devices and none for its own; with no usable sampling tranche the earlier decision stays. */
  lemma PrimeFollowsLatestRound(state: Prime, device: Device, rounds: seq<Round>)
    requires rounds != [] && forall i :: 0 <= i < |rounds| ==> Conforming(rounds[i])
    ensures var latest := rounds[|rounds| - 1].tranches;
      var next := Decide(state, HandleAll(FRESH, RoundsEvents(rounds)).tranches, device);
      && (SampledFrom(latest, device) ==> next == Prime(false, 0))
      && (!SampledFrom(latest, device) &&
          (exists i :: 0 <= i < |latest| && Samples(latest[i]) && DeviceOf(latest[i]) != 0) ==>
            next.offload && next.samplingDevice !in {device.dev, device.renderNode} &&
            exists i :: 0 <= i < |latest| && Samples(latest[i]) && DeviceOf(latest[i]) == next.samplingDevice
              && forall j :: 0 <= j < i && Samples(latest[j]) ==> DeviceOf(latest[j]) == 0)
      && (!SampledFrom(latest, device) &&
          (forall i :: 0 <= i < |latest| && Samples(latest[i]) ==> DeviceOf(latest[i]) == 0) ==>
            next == state)
  {
    var latest, table := rounds[|rounds| - 1].tranches, TableOfRounds(rounds);
    LatestRoundStored(rounds);
    var stored := Meanings(latest, table);
    forall i | 0 <= i < |latest|
      ensures stored[i].sampling == Samples(latest[i]) && stored[i].dev == DeviceOf(latest[i])
    {}
    FirstSamplingNamed(stored);
  }

  /** A sampling tranche names a device, and none names a device of the display. */
  predicate SampledElsewhere(tranches: seq<seq<Event>>, device: Device) {
    && !SampledFrom(tranches, device)
    && exists i :: 0 <= i < |tranches| && Samples(tranches[i]) && DeviceOf(tranches[i]) != 0
  }

  /** From the compositor's words to the stream of a surface with feedback of its own, for every history of
      conforming rounds: if the latest round is sampled by other devices only, exactly the linear modifier,
      whatever the tranches advertise; if it is sampled by the display's device, exactly what it offers that
      device; and if it names no sampling device, whichever of the two the earlier decision asks for. */
  lemma StreamFollowsLatestRound(d: DisplayFacts, state: Prime, rounds: seq<Round>, format: nat)
    requires d.version >= 6 && format != 0
    requires rounds != [] && forall i :: 0 <= i < |rounds| ==> Conforming(rounds[i])
    ensures var latest := rounds[|rounds| - 1].tranches;
      var stored := HandleAll(FRESH, RoundsEvents(rounds)).tranches;
      var linear := SampledElsewhere(latest, d.device) || (state.offload && !SampledFrom(latest, d.device));
      Choice(d, Some(stored), Decide(state, stored, d.device).offload, Some(format)) ==
      Modifiers(if linear then [0] else OfferFor(latest, TableOfRounds(rounds), d.device, format))
  {
    PrimeFollowsLatestRound(state, d.device, rounds);
    ChoiceFollowsLatestRound(d, true, rounds, format);
  }
}
