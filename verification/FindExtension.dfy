/**
 wlEglFindExtension: is a name one of the space-separated tokens of a list?

 A string is a sequence of characters without its terminating zero.
 */
module FindExtension {
  import opened Seqs

  predicate Occurs(s: string, name: string, i: nat) {
    i + |name| <= |s| && forall j :: 0 <= j < |name| ==> s[i + j] == name[j]
  }

  /** strstr, from an index on: the first occurrence. */
  function StrStr(s: string, name: string, start: nat): (r: Option<nat>)
    requires start <= |s|
    ensures r.Some? ==> start <= r.value && Occurs(s, name, r.value)
    ensures forall i :: start <= i < (if r.Some? then r.value else |s| + 1) ==> !Occurs(s, name, i)
    decreases |s| - start
  {
    if Occurs(s, name, start) then Some(start)
    else if start == |s| then None
    else StrStr(s, name, start + 1)
  }

  /** A token may end here: at a space or at the end of the list. */
  predicate EndsAt(s: string, i: nat) {
    i == |s| || (i < |s| && s[i] == ' ')
  }

  predicate AfterSpace(s: string, i: nat) {
    0 < i <= |s| && s[i - 1] == ' '
  }

  /** The source's loop; for the empty name it ends only where EmptyNameEnds says. */
  method FindExtension(extension: string, extensions: string) returns (found: bool)
    requires extension != [] || EndsAt(extensions, 0)
    ensures found == Scan(extensions, extension, 0)
  {
    var start := 0;
    while true
      invariant 0 <= start <= |extensions| && (extension != [] || EndsAt(extensions, start))
      invariant Scan(extensions, extension, start) == Scan(extensions, extension, 0)
      decreases |extensions| - start
    {
      var place := StrStr(extensions, extension, start);
      if place.None? {
        break;
      }
      var terminator := place.value + |extension|;
      if place.value == start || extensions[place.value - 1] == ' ' {
        if terminator == |extensions| || extensions[terminator] == ' ' {
          return true;
        }
      }
      start := terminator;
    }
    return false;
  }

  function Scan(s: string, name: string, start: nat): bool
    requires start <= |s| && (name != [] || EndsAt(s, start))
    decreases |s| - start
  {
    match StrStr(s, name, start)
    case None => false
    case Some(i) =>
      ((i == start || AfterSpace(s, i)) && EndsAt(s, i + |name|)) || Scan(s, name, i + |name|)
  }

  /** With the empty name the search stands still unless it succeeds at once: the place found is the start
      itself, and so is the next start. */
  lemma EmptyNameEnds(s: string, start: nat)
    requires start <= |s|
    ensures StrStr(s, [], start) == Some(start)
    ensures EndsAt(s, start) ==> Scan(s, [], start)
  {
    assert Occurs(s, [], start);
  }

  // ------------------------------------------------------------------ tokens

  predicate TokenAt(s: string, name: string, i: nat) {
    Occurs(s, name, i) && (i == 0 || AfterSpace(s, i)) && EndsAt(s, i + |name|)
  }

  predicate HasToken(s: string, name: string) {
    exists i :: 0 <= i <= |s| && TokenAt(s, name, i)
  }

  /** The occurrences of a name, left to right, none overlapping the one before. */
  function Occurrences(s: string, name: string, start: nat): (r: seq<nat>)
    requires start <= |s| && name != []
    ensures forall k :: 0 <= k < |r| ==> start <= r[k] && Occurs(s, name, r[k])
    ensures forall k :: 0 < k < |r| ==> start < r[k]
    decreases |s| - start
  {
    match StrStr(s, name, start)
    case None => []
    case Some(i) => [i] + Occurrences(s, name, i + |name|)
  }

  /** An occurrence right behind the one before it, with the end of a token behind. */
  predicate GluedAt(s: string, name: string, places: seq<nat>, k: nat) {
    0 < k < |places| && places[k] == places[k - 1] + |name| && EndsAt(s, places[k] + |name|)
  }

  predicate Glued(s: string, name: string)
    requires name != []
  {
    var places := Occurrences(s, name, 0);
    exists k :: 0 <= k < |places| && GluedAt(s, name, places, k)
  }

  /** What makes the loop stop at an occurrence. */
  predicate Accepts(s: string, name: string, start: nat, places: seq<nat>, k: nat) {
    && k < |places|
    && (places[k] == (if k == 0 then start else places[k - 1] + |name|) || AfterSpace(s, places[k]))
    && EndsAt(s, places[k] + |name|)
  }

  predicate AcceptsAny(s: string, name: string, start: nat, places: seq<nat>) {
    exists k :: 0 <= k < |places| && Accepts(s, name, start, places, k)
  }

  lemma AcceptsFirst(s: string, name: string, start: nat, first: nat, rest: seq<nat>)
    ensures AcceptsAny(s, name, start, [first] + rest) <==>
            ((first == start || AfterSpace(s, first)) && EndsAt(s, first + |name|)) ||
            AcceptsAny(s, name, first + |name|, rest)
  {
    var places := [first] + rest;
    if AcceptsAny(s, name, start, places) {
      var k :| 0 <= k < |places| && Accepts(s, name, start, places, k);
      if k > 0 {
        assert places[k] == rest[k - 1] && (k > 1 ==> places[k - 1] == rest[k - 2]);
        assert Accepts(s, name, first + |name|, rest, k - 1);
      }
    }
    if AcceptsAny(s, name, first + |name|, rest) {
      var k :| 0 <= k < |rest| && Accepts(s, name, first + |name|, rest, k);
      assert places[k + 1] == rest[k] && (k > 0 ==> places[k] == rest[k - 1]);
      assert Accepts(s, name, start, places, k + 1);
    }
    if (first == start || AfterSpace(s, first)) && EndsAt(s, first + |name|) {
      assert Accepts(s, name, start, places, 0);
    }
  }

  lemma {:induction false} ScanAccepts(s: string, name: string, start: nat)
    requires start <= |s| && name != []
    ensures Scan(s, name, start) <==> AcceptsAny(s, name, start, Occurrences(s, name, start))
    decreases |s| - start
  {
    var place := StrStr(s, name, start);
    if place.Some? {
      var i := place.value;
      ScanAccepts(s, name, i + |name|);
      assert Occurrences(s, name, start) == [i] + Occurrences(s, name, i + |name|);
      AcceptsFirst(s, name, start, i, Occurrences(s, name, i + |name|));
    }
  }

  lemma NoSpaceInside(s: string, name: string, first: nat, i: nat)
    requires ' ' !in name && Occurs(s, name, first) && first < i <= first + |name|
    ensures !AfterSpace(s, i)
  {
    assert s[first + (i - 1 - first)] == name[i - 1 - first];
  }

  /** Going on behind an occurrence skips no token: no token starts inside a name without spaces. */
  lemma {:induction false} TokenListed(s: string, name: string, start: nat, i: nat)
    requires start <= i && start <= |s| && name != [] && ' ' !in name && TokenAt(s, name, i)
    ensures i in Occurrences(s, name, start)
    decreases |s| - start
  {
    var first := StrStr(s, name, start).value;
    if first < i {
      forall j | first < j <= first + |name|
        ensures !AfterSpace(s, j)
      {
        NoSpaceInside(s, name, first, j);
      }
      TokenListed(s, name, first + |name|, i);
    }
  }

  lemma AcceptedIsTokenOrGlued(s: string, name: string)
    requires name != [] && AcceptsAny(s, name, 0, Occurrences(s, name, 0))
    ensures HasToken(s, name) || Glued(s, name)
  {
    var places := Occurrences(s, name, 0);
    var k :| 0 <= k < |places| && Accepts(s, name, 0, places, k);
    if places[k] == 0 || AfterSpace(s, places[k]) {
      assert TokenAt(s, name, places[k]);
    } else {
      assert GluedAt(s, name, places, k);
    }
  }

  lemma TokenIsAccepted(s: string, name: string)
    requires name != [] && ' ' !in name && HasToken(s, name)
    ensures AcceptsAny(s, name, 0, Occurrences(s, name, 0))
  {
    var places := Occurrences(s, name, 0);
    var i :| 0 <= i <= |s| && TokenAt(s, name, i);
    TokenListed(s, name, 0, i);
    var k :| 0 <= k < |places| && places[k] == i;
    assert Accepts(s, name, 0, places, k);
  }

  lemma GluedIsAccepted(s: string, name: string)
    requires name != [] && Glued(s, name)
    ensures AcceptsAny(s, name, 0, Occurrences(s, name, 0))
  {
    var places := Occurrences(s, name, 0);
    var k :| 0 <= k < |places| && GluedAt(s, name, places, k);
    assert Accepts(s, name, 0, places, k);
  }

  /** Exactly what the search finds: a token, or two occurrences glued together. */
  lemma FoundIff(s: string, name: string)
    requires name != [] && ' ' !in name
    ensures Scan(s, name, 0) <==> HasToken(s, name) || Glued(s, name)
  {
    ScanAccepts(s, name, 0);
    if Scan(s, name, 0) {
      AcceptedIsTokenOrGlued(s, name);
    } else {
      if HasToken(s, name) { TokenIsAccepted(s, name); }
      if Glued(s, name) { GluedIsAccepted(s, name); }
    }
  }

  /** So the answer is right exactly if a glued pair, where there is one, comes with a real token. */
  lemma RightIff(s: string, name: string)
    requires name != [] && ' ' !in name
    ensures (Scan(s, name, 0) <==> HasToken(s, name)) <==> (Glued(s, name) ==> HasToken(s, name))
  {
    FoundIff(s, name);
  }

  predicate RepeatedAt(s: string, name: string, i: nat) {
    Occurs(s, name, i) && Occurs(s, name, i + |name|)
  }

  lemma GluedRepeats(s: string, name: string)
    requires name != [] && Glued(s, name)
    ensures exists i :: 0 <= i <= |s| && RepeatedAt(s, name, i)
  {
    var places := Occurrences(s, name, 0);
    var k :| 0 <= k < |places| && GluedAt(s, name, places, k);
    assert RepeatedAt(s, name, places[k - 1]);
  }

  /** A list in which the name never stands twice back to back is searched correctly. */
  lemma RightWithoutRepetition(s: string, name: string)
    requires name != [] && ' ' !in name
    requires forall i :: 0 <= i <= |s| ==> !RepeatedAt(s, name, i)
    ensures Scan(s, name, 0) <==> HasToken(s, name)
  {
    FoundIff(s, name);
    if Glued(s, name) {
      GluedRepeats(s, name);
    }
  }

  /** A list that is no list of tokens: FOO is found in FOOFOO. */
  lemma GluedNameFound()
    ensures Scan("FOOFOO", "FOO", 0) && !HasToken("FOOFOO", "FOO")
  {
    var s, name := "FOOFOO", "FOO";
    assert s[0..3] == name && s[3..6] == name;
    assert Occurs(s, name, 0) && Occurs(s, name, 3);
    assert StrStr(s, name, 0) == Some(0);
    assert StrStr(s, name, 3) == Some(3);
    assert EndsAt(s, 6);
    assert Scan(s, name, 3);
    forall i | 0 <= i <= |s|
      ensures !TokenAt(s, name, i)
    {
      if i == 0 {
        assert !EndsAt(s, 3);
      } else {
        assert s[i - 1] == 'F' || s[i - 1] == 'O';
      }
    }
  }
}
