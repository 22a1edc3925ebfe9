/**
 Window configs on top of a driver that only knows stream configs: wlEglChooseConfigHook rewrites the
 request, wlEglGetConfigAttribHook rewrites what is reported.
 */
module ConfigAttribs {
  const EGL_SURFACE_TYPE: bv32 := 0x3033
  const EGL_NONE: bv32 := 0x3038
  const EGL_DONT_CARE: bv32 := 0xFFFF_FFFF
  const EGL_WINDOW_BIT: bv32 := 0x0004
  const EGL_STREAM_BIT_KHR: bv32 := 0x0800

  datatype Attr = Attr(name: bv32, value: bv32)

  /** An EGL attribute list: pairs, with EGL_NONE in the place of a name after the last one. */
  ghost predicate Terminated(s: seq<bv32>) {
    exists k :: 0 <= k && 2 * k < |s| && s[2 * k] == EGL_NONE
  }

  function Pairs(s: seq<bv32>): (n: nat)
    requires Terminated(s)
    ensures 2 * n < |s| && s[2 * n] == EGL_NONE
    ensures forall k :: 0 <= k < n ==> s[2 * k] != EGL_NONE
  {
    PairsFrom(s, 0)
  }

  function PairsFrom(s: seq<bv32>, k: nat): (n: nat)
    requires exists m :: k <= m && 2 * m < |s| && s[2 * m] == EGL_NONE
    ensures k <= n && 2 * n < |s| && s[2 * n] == EGL_NONE
    ensures forall j :: k <= j < n ==> s[2 * j] != EGL_NONE
    decreases |s| - 2 * k
  {
    if s[2 * k] == EGL_NONE then k else PairsFrom(s, k + 1)
  }

  function ListOf(s: seq<bv32>): (list: seq<Attr>)
    requires Terminated(s)
  {
    seq(Pairs(s), k requires 0 <= k < Pairs(s) => Attr(s[2 * k], s[2 * k + 1]))
  }

  lemma PairsIs(s: seq<bv32>, n: nat)
    requires 2 * n < |s| && s[2 * n] == EGL_NONE
    requires forall k :: 0 <= k < n ==> s[2 * k] != EGL_NONE
    ensures Terminated(s) && Pairs(s) == n
  {
  }

  // ------------------------------------------------------------------ the rewriting

  function RewriteValue(value: bv32): bv32 {
    if value != EGL_DONT_CARE && value & EGL_WINDOW_BIT != 0
    then (value & !EGL_WINDOW_BIT) | EGL_STREAM_BIT_KHR
    else value
  }

  function RewriteAttr(a: Attr): Attr {
    if a.name == EGL_SURFACE_TYPE then Attr(a.name, RewriteValue(a.value)) else a
  }

  predicate NamesSurfaceType(list: seq<Attr>) {
    exists k :: 0 <= k < |list| && list[k].name == EGL_SURFACE_TYPE
  }

  function RewriteEach(list: seq<Attr>): (r: seq<Attr>)
    ensures |r| == |list| && forall k :: 0 <= k < |r| ==> r[k] == RewriteAttr(list[k])
  {
    seq(|list|, k requires 0 <= k < |list| => RewriteAttr(list[k]))
  }

  /** The request handed to the driver. */
  function Rewrite(list: seq<Attr>): seq<Attr> {
    if NamesSurfaceType(list) then RewriteEach(list) else list + [Attr(EGL_SURFACE_TYPE, EGL_STREAM_BIT_KHR)]
  }

  /** What wlEglGetConfigAttribHook makes of a value the driver returned. */
  method ReportedAttrib(attribute: bv32, raw: bv32) returns (value: bv32)
    ensures value == Reported(attribute, raw)
    ensures attribute != 0x3033 ==> value == raw
  {
    value := raw;
    if attribute == EGL_SURFACE_TYPE {
      if value & EGL_STREAM_BIT_KHR != 0 {
        value := value | EGL_WINDOW_BIT;
      } else {
        value := value & !EGL_WINDOW_BIT;
      }
    }
  }

  function Reported(attribute: bv32, raw: bv32): bv32 {
    if attribute != EGL_SURFACE_TYPE then raw
    else if raw & EGL_STREAM_BIT_KHR != 0 then raw | EGL_WINDOW_BIT
    else raw & !EGL_WINDOW_BIT
  }

  /** What is reported is what the driver gave, but for the window bit of a surface type: it is set exactly if
      the driver's config can be used with streams. */
  lemma ReportedBits(attribute: bv32, raw: bv32)
    ensures attribute != 0x3033 ==> Reported(attribute, raw) == raw
    ensures Reported(0x3033, raw) & !4 == raw & !4
    ensures Reported(0x3033, raw) & 4 != 0 <==> raw & 0x800 != 0
  {}

  // ------------------------------------------------------------------ in place, as the hook does it

  function ListOfArray(attribs: array?<bv32>): (list: seq<Attr>)
    requires attribs != null ==> Terminated(attribs[..])
    reads attribs
  {
    if attribs == null then [] else ListOf(attribs[..])
  }

  lemma NamesLast(list: seq<Attr>, a: Attr)
    ensures NamesSurfaceType(list + [a]) <==> NamesSurfaceType(list) || a.name == EGL_SURFACE_TYPE
  {
    assert (list + [a])[|list|] == a;
    forall k | 0 <= k < |list|
      ensures (list + [a])[k] == list[k]
    {}
  }

  predicate Holds(s: seq<bv32>, list: seq<Attr>) {
    && |s| == 2 * |list| + 1 && s[2 * |list|] == EGL_NONE
    && forall j :: 0 <= j < |list| ==>
         list[j].name != EGL_NONE && s[2 * j] == list[j].name && s[2 * j + 1] == list[j].value
  }

  lemma HoldsList(s: seq<bv32>, list: seq<Attr>)
    requires Holds(s, list)
    ensures Terminated(s) && ListOf(s) == list
  {
    PairsIs(s, |list|);
  }

  /** The first loop of the hook: how many pairs, and whether one of them is EGL_SURFACE_TYPE. */
  method CountAttribs(attribs: array<bv32>) returns (k: nat, surfType: bool)
    requires Terminated(attribs[..])
    ensures k == |ListOf(attribs[..])| && surfType == NamesSurfaceType(ListOf(attribs[..]))
  {
    ghost var list := ListOf(attribs[..]);
    k, surfType := 0, false;
    while attribs[2 * k] != EGL_NONE
      invariant 0 <= k <= |list|
      invariant surfType <==> NamesSurfaceType(list[..k])
      decreases |list| - k
    {
      assert list[..k + 1] == list[..k] + [list[k]];
      NamesLast(list[..k], list[k]);
      surfType := surfType || attribs[2 * k] == EGL_SURFACE_TYPE;
      k := k + 1;
    }
    assert list[..k] == list;
  }

  /** The loop that replaces the window bits. */
  method RewriteInPlace(attribs2: array<bv32>, ghost list: seq<Attr>)
    requires Holds(attribs2[..], list)
    modifies attribs2
    ensures Terminated(attribs2[..]) && ListOf(attribs2[..]) == RewriteEach(list)
  {
    var k := 0;
    while attribs2[2 * k] != EGL_NONE
      invariant 0 <= k <= |list|
      invariant attribs2[2 * |list|] == EGL_NONE
      invariant forall j :: 0 <= j < |list| ==> attribs2[2 * j] == list[j].name
      invariant forall j :: 0 <= j < k ==> attribs2[2 * j + 1] == RewriteAttr(list[j]).value
      invariant forall j :: k <= j < |list| ==> attribs2[2 * j + 1] == list[j].value
      decreases |list| - k
    {
      if attribs2[2 * k] == EGL_SURFACE_TYPE && attribs2[2 * k + 1] != EGL_DONT_CARE &&
         attribs2[2 * k + 1] & EGL_WINDOW_BIT != 0
      {
        attribs2[2 * k + 1] := attribs2[2 * k + 1] & !EGL_WINDOW_BIT;
        attribs2[2 * k + 1] := attribs2[2 * k + 1] | EGL_STREAM_BIT_KHR;
      }
      k := k + 1;
    }
    HoldsList(attribs2[..], RewriteEach(list));
  }

  lemma HeldByCopy(s: seq<bv32>, copy: seq<bv32>, list: seq<Attr>)
    requires Terminated(s) && ListOf(s) == list && 2 * |list| <= |copy|
    requires copy[..2 * |list|] == s[..2 * |list|]
    ensures forall j :: 0 <= j < |list| ==>
      list[j].name != EGL_NONE && copy[2 * j] == list[j].name && copy[2 * j + 1] == list[j].value
  {
    forall i | 0 <= i < 2 * |list|
      ensures copy[i] == s[i]
    {
      assert copy[i] == copy[..2 * |list|][i];
    }
  }

  /** The copy: the first n entries, room up to total, and a terminator behind that. */
  method CopyAttribs(attribs: array?<bv32>, n: nat, total: nat) returns (attribs2: array<bv32>)
    requires n <= total && (if attribs == null then n == 0 else n <= attribs.Length)
    ensures fresh(attribs2) && attribs2.Length == total + 1 && attribs2[total] == EGL_NONE
    ensures attribs != null ==> attribs2[..n] == attribs[..n]
  {
    attribs2 := new bv32[total + 1];
    if n > 0 {
      forall i | 0 <= i < n {
        attribs2[i] := attribs[i];
      }
    }
    attribs2[total] := EGL_NONE;
  }

  /** The list wlEglChooseConfigHook passes on: a copy with room for exactly one more pair if the request
      does not name EGL_SURFACE_TYPE. */
  method ChooseConfigAttribs(attribs: array?<bv32>) returns (attribs2: array<bv32>)
    requires attribs != null ==> Terminated(attribs[..])
    ensures fresh(attribs2) && Terminated(attribs2[..])
    ensures ListOf(attribs2[..]) == Rewrite(ListOfArray(attribs))
    ensures attribs2.Length == 2 * |Rewrite(ListOfArray(attribs))| + 1
  {
    ghost var list := ListOfArray(attribs);
    var k, surfType := 0, false;
    if attribs != null {
      k, surfType := CountAttribs(attribs);
    }
    var total := if surfType then 2 * k else 2 * k + 2;
    attribs2 := CopyAttribs(attribs, 2 * k, total);
    if attribs != null {
      HeldByCopy(attribs[..], attribs2[..], list);
    }
    if surfType {
      RewriteInPlace(attribs2, list);
    } else {
      attribs2[total - 2] := EGL_SURFACE_TYPE;
      attribs2[total - 1] := EGL_STREAM_BIT_KHR;
      HoldsList(attribs2[..], Rewrite(list));
    }
  }

  // ------------------------------------------------------------------ what eglChooseConfig selects

  /** Section 3.4.1 of EGL 1.5: EGL_SURFACE_TYPE is a mask, all of whose bits the config must have. */
  predicate MaskMet(wanted: bv32, has: bv32) {
    wanted == EGL_DONT_CARE || wanted & !has == 0
  }

  /** Whether a config meets one attribute; `other` judges every attribute but the surface type. */
  predicate Meets(a: Attr, surfaceType: bv32, other: Attr -> bool) {
    if a.name == EGL_SURFACE_TYPE then MaskMet(a.value, surfaceType) else other(a)
  }

  predicate AllMet(list: seq<Attr>, surfaceType: bv32, other: Attr -> bool) {
    forall k :: 0 <= k < |list| ==> Meets(list[k], surfaceType, other)
  }

  /** Whether a config meets a list; a list without EGL_SURFACE_TYPE asks for window support. */
  predicate Selected(list: seq<Attr>, surfaceType: bv32, other: Attr -> bool) {
    && AllMet(list, surfaceType, other)
    && (!NamesSurfaceType(list) ==> MaskMet(EGL_WINDOW_BIT, surfaceType))
  }

  lemma WindowBitApart(wanted: bv32, raw: bv32)
    requires wanted & EGL_WINDOW_BIT == 0
    ensures wanted & !(raw | EGL_WINDOW_BIT) == wanted & !raw
    ensures wanted & !(raw & !EGL_WINDOW_BIT) == wanted & !raw
  {}

  /** Without the window bit a mask asks the same of the raw and of the reported surface type. */
  lemma RestIsReported(wanted: bv32, raw: bv32)
    requires wanted & EGL_WINDOW_BIT == 0
    ensures MaskMet(wanted, raw) ==> MaskMet(wanted, Reported(EGL_SURFACE_TYPE, raw))
  {
    WindowBitApart(wanted, raw);
  }

  lemma RestIsSelected(wanted: bv32, raw: bv32)
    requires wanted & EGL_WINDOW_BIT == 0
    ensures MaskMet(wanted, Reported(EGL_SURFACE_TYPE, raw)) ==> MaskMet(wanted, raw)
  {
    WindowBitApart(wanted, raw);
  }

  lemma SelectedIsReported(wanted: bv32, raw: bv32)
    requires MaskMet(RewriteValue(wanted), raw)
    ensures MaskMet(wanted, Reported(EGL_SURFACE_TYPE, raw))
  {
    if wanted == EGL_DONT_CARE {
    } else if wanted & EGL_WINDOW_BIT == 0 {
      RestIsReported(wanted, raw);
    } else {
    }
  }

  lemma ReportedIsSelected(wanted: bv32, raw: bv32)
    requires MaskMet(wanted, Reported(EGL_SURFACE_TYPE, raw))
    ensures MaskMet(RewriteValue(wanted), raw)
  {
    if wanted == EGL_DONT_CARE {
    } else if wanted & EGL_WINDOW_BIT == 0 {
      RestIsSelected(wanted, raw);
    } else {
    }
  }

  /** A driver's config meets a rewritten mask exactly if the reported surface type meets the original. */
  lemma MaskCarriesOver(wanted: bv32, raw: bv32)
    ensures MaskMet(RewriteValue(wanted), raw) <==> MaskMet(wanted, Reported(EGL_SURFACE_TYPE, raw))
  {
    if MaskMet(RewriteValue(wanted), raw) {
      SelectedIsReported(wanted, raw);
    }
    if MaskMet(wanted, Reported(EGL_SURFACE_TYPE, raw)) {
      ReportedIsSelected(wanted, raw);
    }
  }

  /** The same for one attribute of any name. */
  lemma AttrCarriesOver(a: Attr, raw: bv32, other: Attr -> bool)
    ensures Meets(RewriteAttr(a), raw, other) <==> Meets(a, Reported(EGL_SURFACE_TYPE, raw), other)
  {
    MaskCarriesOver(a.value, raw);
  }

  /** Without EGL_SURFACE_TYPE the default of window support is met exactly if the driver's config meets
      the stream bit asked for in its place. */
  lemma DefaultCarriesOver(raw: bv32)
    ensures MaskMet(EGL_STREAM_BIT_KHR, raw) <==> MaskMet(EGL_WINDOW_BIT, Reported(EGL_SURFACE_TYPE, raw))
  {
  }

  lemma AllCarryOver(list: seq<Attr>, raw: bv32, other: Attr -> bool)
    ensures AllMet(RewriteEach(list), raw, other) <==> AllMet(list, Reported(EGL_SURFACE_TYPE, raw), other)
  {
    forall k | 0 <= k < |list|
      ensures Meets(RewriteEach(list)[k], raw, other) <==> Meets(list[k], Reported(EGL_SURFACE_TYPE, raw), other)
    {
      AttrCarriesOver(list[k], raw, other);
    }
  }

  lemma NamedCarryOver(list: seq<Attr>)
    ensures NamesSurfaceType(Rewrite(list))
    ensures !NamesSurfaceType(list) ==> RewriteEach(list) == list
  {
    if NamesSurfaceType(list) {
      var k :| 0 <= k < |list| && list[k].name == EGL_SURFACE_TYPE;
      assert Rewrite(list)[k].name == EGL_SURFACE_TYPE;
    } else {
      assert Rewrite(list)[|list|].name == EGL_SURFACE_TYPE;
    }
  }

  lemma AllMetLast(list: seq<Attr>, a: Attr, surfaceType: bv32, other: Attr -> bool)
    ensures AllMet(list + [a], surfaceType, other) <==> AllMet(list, surfaceType, other) && Meets(a, surfaceType, other)
  {
    assert (list + [a])[|list|] == a;
    forall k | 0 <= k < |list|
      ensures (list + [a])[k] == list[k]
    {}
  }

  /** For every request and every config: the driver selects it for the rewritten list exactly if what the
      platform reports of it meets the request. */
  lemma SelectionCarriesOver(list: seq<Attr>, raw: bv32, other: Attr -> bool)
    ensures Selected(Rewrite(list), raw, other) <==> Selected(list, Reported(EGL_SURFACE_TYPE, raw), other)
  {
    NamedCarryOver(list);
    AllCarryOver(list, raw, other);
    if !NamesSurfaceType(list) {
      DefaultCarriesOver(raw);
      AllMetLast(list, Attr(EGL_SURFACE_TYPE, EGL_STREAM_BIT_KHR), raw, other);
    }
  }
}
