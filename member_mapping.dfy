/** The member-mapping dialog shown when an imported spreadsheet names
    people the trip does not know (an exact, case-insensitive match is
    mapped automatically). Its state is the `mapping` object from
    spreadsheet names to trip members plus the `newMembers` list. */
module MemberMapping {
  import opened Options
  import opened Text
  import opened Seqs

  /** `tripMembers.find(t => t.toLowerCase() === x.toLowerCase())`:
      the first trip member equal to `x` ignoring case. */
  function FirstMatch(trip: seq<string>, x: string): (r: Option<string>)
    ensures r.None? <==> forall t :: t in trip ==> !SameIgnoringCase(t, x)
    ensures r.Some? ==> exists i :: 0 <= i < |trip| && trip[i] == r.value && SameIgnoringCase(trip[i], x) &&
                                    forall j :: 0 <= j < i ==> !SameIgnoringCase(trip[j], x)
  {
    if trip == [] then None
    else if SameIgnoringCase(trip[0], x) then
      Some(trip[0])
    else
      var r := FirstMatch(trip[1..], x);
      if r.Some? then
        var i :| 0 <= i < |trip[1..]| && trip[1..][i] == r.value && SameIgnoringCase(trip[1..][i], x) &&
                 forall j :: 0 <= j < i ==> !SameIgnoringCase(trip[1..][j], x);
        assert trip[i + 1] == r.value;
        assert forall j :: 0 <= j < i + 1 ==> !SameIgnoringCase(trip[j], x) by {
          forall j | 0 <= j < i + 1 ensures !SameIgnoringCase(trip[j], x) {
            if j > 0 { assert trip[j] == trip[1..][j - 1]; }
          }
        }
        r
      else
        assert forall t :: t in trip ==> t == trip[0] || t in trip[1..];
        r
  }

  /** `if (exactMatch)`: a match was found and it is not the empty name. */
  predicate AutoMatched(trip: seq<string>, x: string) {
    var hit := FirstMatch(trip, x);
    hit.Some? && hit.value != ""
  }

  /** The `autoMapping` object the dialog's opening effect builds. */
  function AutoMapping(excel: seq<string>, trip: seq<string>): map<string, string> {
    if excel == [] then map[]
    else
      var m := AutoMapping(excel[..|excel| - 1], trip);
      var x := excel[|excel| - 1];
      if AutoMatched(trip, x) then m[x := FirstMatch(trip, x).value] else m
  }

  /** The `unmappedExcelMembers` list the same effect builds. */
  function Unmapped(excel: seq<string>, trip: seq<string>): seq<string> {
    if excel == [] then []
    else
      var u := Unmapped(excel[..|excel| - 1], trip);
      var x := excel[|excel| - 1];
      if AutoMatched(trip, x) then u else u + [x]
  }

  /** Auto-mapping maps exactly the names with a non-empty match, each to
      its first case-insensitive match among the trip members. */
  lemma {:induction false} AutoMappingMaps(excel: seq<string>, trip: seq<string>, x: string)
    ensures x in AutoMapping(excel, trip) <==> x in excel && AutoMatched(trip, x)
    ensures x in AutoMapping(excel, trip) ==> AutoMapping(excel, trip)[x] == FirstMatch(trip, x).value
  {
    if excel != [] {
      var init := excel[..|excel| - 1];
      AutoMappingMaps(init, trip, x);
      assert excel == init + [excel[|excel| - 1]];
    }
  }

  /** Every auto-mapped value is a non-empty trip member equal to its key
      ignoring case. */
  lemma AutoMappingValues(excel: seq<string>, trip: seq<string>, x: string)
    requires x in AutoMapping(excel, trip)
    ensures AutoMapping(excel, trip)[x] in trip && AutoMapping(excel, trip)[x] != ""
    ensures SameIgnoringCase(AutoMapping(excel, trip)[x], x)
  {
    AutoMappingMaps(excel, trip, x);
  }

  /** The names left over are exactly those without a non-empty match,
      in the order they were imported. */
  lemma {:induction false} UnmappedHolds(excel: seq<string>, trip: seq<string>, x: string)
    ensures x in Unmapped(excel, trip) <==> x in excel && !AutoMatched(trip, x)
  {
    if excel != [] {
      var init := excel[..|excel| - 1];
      UnmappedHolds(init, trip, x);
      assert excel == init + [excel[|excel| - 1]];
    }
  }

  /** Distinct imported names give a duplicate-free `newMembers`. */
  lemma {:induction false} UnmappedNoDup(excel: seq<string>, trip: seq<string>)
    requires NoDup(excel)
    ensures NoDup(Unmapped(excel, trip))
  {
    if excel != [] {
      var init := excel[..|excel| - 1];
      var x := excel[|excel| - 1];
      assert NoDup(init);
      UnmappedNoDup(init, trip);
      assert x !in init;
      UnmappedHolds(init, trip, x);
    }
  }

  /** With distinct imported names, the summary's "mapped to existing"
      and "adding as new" counts add up to the number of imported names. */
  lemma {:induction false} CountsAddUp(excel: seq<string>, trip: seq<string>)
    requires NoDup(excel)
    ensures |AutoMapping(excel, trip)| + |Unmapped(excel, trip)| == |excel|
  {
    if excel != [] {
      var init := excel[..|excel| - 1];
      var x := excel[|excel| - 1];
      assert NoDup(init);
      CountsAddUp(init, trip);
      assert x !in init;
      AutoMappingMaps(init, trip, x);
      var m := AutoMapping(init, trip);
      if AutoMatched(trip, x) {
        assert x !in m.Keys;
        assert m[x := FirstMatch(trip, x).value].Keys == m.Keys + {x};
      }
    }
  }

  /** The dialog's state. The imported names and the trip's members are
      its (fixed) properties. */
  class Dialog {
    const excelMembers: seq<string>
    const tripMembers: seq<string>
    var mapping: map<string, string>
    var newMembers: seq<string>

    constructor (excelMembers: seq<string>, tripMembers: seq<string>)
      ensures this.excelMembers == excelMembers && this.tripMembers == tripMembers
      ensures mapping == map[] && newMembers == []
    {
      this.excelMembers := excelMembers;
      this.tripMembers := tripMembers;
      mapping := map[];
      newMembers := [];
    }

    /** `mapping[x]` is truthy. */
    predicate Mapped(x: string)
      reads this
    {
      x in mapping && mapping[x] != ""
    }

    /** What the dialog keeps true: mapped names point at trip members,
        `newMembers` has no repeats, and no name is both mapped and new. */
    ghost predicate Valid()
      reads this
    {
      (forall x :: x in mapping ==> mapping[x] in tripMembers) &&
      NoDup(newMembers) &&
      (forall x :: x in newMembers ==> x !in mapping)
    }

    /** `excelMembers.every(m => mapping[m] || newMembers.includes(m))`;
        the Confirm button is enabled exactly when this holds. */
    predicate AllMembersHandled()
      reads this
    {
      forall m :: m in excelMembers ==> Mapped(m) || m in newMembers
    }

    /** The "total trip members after import" the summary shows. */
    function MembersAfterImport(): (n: nat)
      reads this
      ensures n >= |tripMembers|
    {
      |tripMembers| + |newMembers|
    }

    /** The effect run when the dialog opens: each name goes to its first
        case-insensitive match among the trip members, or to `newMembers`. */
    method Open()
      modifies this
      ensures mapping == AutoMapping(excelMembers, tripMembers)
      ensures newMembers == Unmapped(excelMembers, tripMembers)
      ensures NoDup(excelMembers) ==> Valid()
      ensures AllMembersHandled()
      ensures forall m :: m in excelMembers ==> (Mapped(m) <==> m !in newMembers)
    {
      var autoMapping: map<string, string> := map[];
      var unmapped: seq<string> := [];
      for k := 0 to |excelMembers|
        invariant autoMapping == AutoMapping(excelMembers[..k], tripMembers)
        invariant unmapped == Unmapped(excelMembers[..k], tripMembers)
      {
        var x := excelMembers[k];
        assert excelMembers[..k + 1][..k] == excelMembers[..k];
        var exactMatch := FirstMatch(tripMembers, x);
        if exactMatch.Some? && exactMatch.value != "" {
          autoMapping := autoMapping[x := exactMatch.value];
        } else {
          unmapped := unmapped + [x];
        }
      }
      assert excelMembers[..|excelMembers|] == excelMembers;
      mapping := autoMapping;
      newMembers := unmapped;
      OpenedState();
    }

    /** What the opening state satisfies, from the lemmas on the two
        specification functions. */
    lemma OpenedState()
      requires mapping == AutoMapping(excelMembers, tripMembers)
      requires newMembers == Unmapped(excelMembers, tripMembers)
      ensures NoDup(excelMembers) ==> Valid()
      ensures AllMembersHandled()
      ensures forall m :: m in excelMembers ==> (Mapped(m) <==> m !in newMembers)
    {
      forall x ensures (x in mapping ==> mapping[x] in tripMembers && mapping[x] != "") &&
                       (x in mapping <==> x in excelMembers && AutoMatched(tripMembers, x)) &&
                       (x in newMembers <==> x in excelMembers && !AutoMatched(tripMembers, x)) {
        AutoMappingMaps(excelMembers, tripMembers, x);
        UnmappedHolds(excelMembers, tripMembers, x);
        if x in mapping { AutoMappingValues(excelMembers, tripMembers, x); }
      }
      if NoDup(excelMembers) { UnmappedNoDup(excelMembers, tripMembers); }
    }

    /** Choosing trip member `t` for `x` maps it and takes it off the new
        list; no other name changes. */
    method HandleMappingChange(x: string, t: string)
      modifies this
      ensures mapping == old(mapping)[x := t]
      ensures newMembers == RemoveAll(old(newMembers), x)
      ensures old(Valid()) && t in tripMembers ==> Valid()
      ensures t != "" ==> Mapped(x) && x !in newMembers
      ensures forall y :: y != x ==> (Mapped(y) <==> old(Mapped(y))) && (y in newMembers <==> y in old(newMembers))
    {
      if old(Valid()) && t in tripMembers {
        RemoveAllKeepsNoDup(newMembers, x);
      }
      mapping := mapping[x := t];
      newMembers := RemoveAll(newMembers, x);
    }

    /** Marking `x` as a new member drops its mapping and lists it once. */
    method HandleAddAsNew(x: string)
      modifies this
      ensures mapping == old(mapping) - {x}
      ensures newMembers == if x in old(newMembers) then old(newMembers) else old(newMembers) + [x]
      ensures old(Valid()) ==> Valid()
      ensures !Mapped(x) && x in newMembers
      ensures forall y :: y != x ==> (Mapped(y) <==> old(Mapped(y))) && (y in newMembers <==> y in old(newMembers))
    {
      mapping := mapping - {x};
      if x !in newMembers {
        newMembers := newMembers + [x];
      }
    }
  }
}
