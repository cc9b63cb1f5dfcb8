/** The trip creation page (src/pages/CreateTrip.tsx): the draft's member
    slots, how the member count resizes them, and the checks and row
    shaping done before a trip is inserted. */
module CreateTrip {
  import opened Text

  /** The smallest and largest member counts the page accepts. */
  const MinMembers: int := 2
  const MaxMembers: int := 100

  /** `n` empty name slots. */
  function Blanks(n: nat): (r: seq<string>)
    ensures |r| == n
    ensures forall i :: 0 <= i < n ==> r[i] == ""
  {
    if n == 0 then [] else Blanks(n - 1) + [""]
  }

  /** The slots after resizing to `count`: the existing names kept up to
      `count`, padded with empty slots when growing. */
  function Resized(slots: seq<string>, count: nat): (r: seq<string>)
    ensures |r| == count
    ensures forall i :: 0 <= i < count && i < |slots| ==> r[i] == slots[i]
    ensures forall i :: |slots| <= i < count ==> r[i] == ""
  {
    if count > |slots| then slots + Blanks(count - |slots|) else slots[..count]
  }

  /** Growing and then going back to the old count gives the old slots. */
  lemma ResizeBack(slots: seq<string>, count: nat)
    requires count >= |slots|
    ensures Resized(Resized(slots, count), |slots|) == slots
  {
  }

  /** Shrinking loses the names beyond the new count: going back up
      brings empty slots, not the old names. */
  lemma ShrinkForgets(slots: seq<string>, count: nat)
    requires count < |slots|
    ensures Resized(Resized(slots, count), |slots|) == slots[..count] + Blanks(|slots| - count)
  {
  }

  /** `members.filter(m => m.trim())`: the names that are not blank, in
      order and untrimmed. */
  function FilledMembers(slots: seq<string>): (r: seq<string>)
    ensures |r| <= |slots|
    ensures forall x :: x in r <==> x in slots && Trim(x) != ""
  {
    if slots == [] then []
    else
      var rest := FilledMembers(slots[..|slots| - 1]);
      var last := slots[|slots| - 1];
      assert forall x :: x in slots <==> x in slots[..|slots| - 1] || x == last;
      if Trim(last) != "" then rest + [last] else rest
  }

  /** The filter keeps the order of the slots: it splits over
      concatenation. */
  lemma {:induction false} FilledAppend(a: seq<string>, b: seq<string>)
    ensures FilledMembers(a + b) == FilledMembers(a) + FilledMembers(b)
    decreases |b|
  {
    if b == [] {
      assert a + b == a;
    } else {
      var init := b[..|b| - 1];
      assert (a + b)[..|a + b| - 1] == a + init;
      FilledAppend(a, init);
    }
  }

  /** Blank slots are never part of a trip. */
  lemma {:induction false} BlanksNotFilled(n: nat)
    ensures FilledMembers(Blanks(n)) == []
  {
    if n > 0 {
      BlanksNotFilled(n - 1);
      assert Blanks(n)[..n - 1] == Blanks(n - 1);
    }
  }

  /** Growing the slot list never changes the trip that would be created. */
  lemma GrowingAddsNoMembers(slots: seq<string>, count: nat)
    requires count >= |slots|
    ensures FilledMembers(Resized(slots, count)) == FilledMembers(slots)
  {
    if count > |slots| {
      var pad := Blanks(count - |slots|);
      assert Resized(slots, count) == slots + pad;
      FilledAppend(slots, pad);
      BlanksNotFilled(count - |slots|);
      assert FilledMembers(slots) + [] == FilledMembers(slots);
    } else {
      assert slots[..count] == slots;
    }
  }

  /** The row inserted into `trips`. */
  datatype TripRow = TripRow(name: string, memberCount: nat, members: seq<string>)

  /** Why creation stops before anything is inserted. */
  datatype Failure = NameRequired | TooFewMembers

  datatype Creation = Rejected(reason: Failure) | Insert(row: TripRow)

  /** The checks of `handleCreateTrip` and the row it inserts: a trip name
      that is not blank, then at least two filled member slots. */
  function PlanTrip(tripName: string, slots: seq<string>): (r: Creation)
    ensures r == Rejected(NameRequired) <==> Trim(tripName) == ""
    ensures r == Rejected(TooFewMembers) <==> Trim(tripName) != "" && |FilledMembers(slots)| < 2
    ensures r.Insert? ==> r.row.name == Trim(tripName) && r.row.name != ""
    ensures r.Insert? ==> r.row.members == FilledMembers(slots) && r.row.memberCount == |r.row.members| >= 2
    ensures r.Insert? ==> forall m :: m in r.row.members ==> m in slots && Trim(m) != ""
  {
    if Trim(tripName) == "" then Rejected(NameRequired)
    else
      var filled := FilledMembers(slots);
      if |filled| < 2 then Rejected(TooFewMembers)
      else Insert(TripRow(Trim(tripName), |filled|, filled))
  }

  /** The page's draft: the trip name, the member count shown, and one
      name slot per member. */
  class TripDraft {
    var tripName: string
    var memberCount: int
    var members: seq<string>

    /** One slot per member, and a count the page accepts. */
    predicate Valid()
      reads this
    {
      memberCount == |members| && MinMembers <= memberCount <= MaxMembers
    }

    constructor ()
      ensures tripName == "" && memberCount == 4 && members == ["", "", "", ""]
      ensures Valid()
    {
      tripName := "";
      memberCount := 4;
      members := ["", "", "", ""];
    }

    method SetTripName(name: string)
      modifies this
      ensures tripName == name && memberCount == old(memberCount) && members == old(members)
    {
      tripName := name;
    }

    /** `handleMemberCountChange`: a count outside 2..100 is ignored;
        otherwise the slots are padded or cut to `count`. */
    method HandleMemberCountChange(count: int)
      modifies this
      ensures count < MinMembers || count > MaxMembers ==>
                memberCount == old(memberCount) && members == old(members)
      ensures MinMembers <= count <= MaxMembers ==>
                memberCount == count && members == Resized(old(members), count)
      ensures tripName == old(tripName)
      ensures MinMembers <= count <= MaxMembers || old(Valid()) ==> Valid()
    {
      if count < MinMembers || count > MaxMembers {
        return;
      }
      var newMembers := members;
      if count > |members| {
        while |newMembers| < count
          invariant |members| <= |newMembers| <= count
          invariant newMembers == members + Blanks(|newMembers| - |members|)
          decreases count - |newMembers|
        {
          newMembers := newMembers + [""];
        }
      } else {
        newMembers := newMembers[..count];
      }
      memberCount := count;
      members := newMembers;
    }

    /** `updateMember`: only slot `index` changes. */
    method UpdateMember(index: nat, name: string)
      requires index < |members|
      modifies this
      ensures members == old(members)[index := name]
      ensures forall i :: 0 <= i < |members| && i != index ==> members[i] == old(members)[i]
      ensures tripName == old(tripName) && memberCount == old(memberCount)
      ensures old(Valid()) ==> Valid()
    {
      var newMembers := members;
      newMembers := newMembers[index := name];
      members := newMembers;
    }
  }
}
