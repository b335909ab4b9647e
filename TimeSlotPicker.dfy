/** Slot de-duplication and slot-button selection of the time-slot picker.
    The backend may return the same instant twice; the picker shows one button
    per distinct instant, in order of first occurrence. */
module TimeSlotPicker {
  import opened Common
  import opened Backend
  import Decimal

  predicate NoDup<T(==,!new)>(s: seq<T>) {
    forall i, j :: 0 <= i < j < |s| ==> s[i] != s[j]
  }

  /** `set.add(x)` on a JS `Set`, viewed as its insertion-ordered contents: a
      value already present changes nothing, a new one goes to the end. */
  function SetAdd<T(==,!new)>(contents: seq<T>, x: T): seq<T> {
    if x in contents then contents else contents + [x]
  }

  /** `Array.from(new Set(xs))`: the `Set` is filled left to right. */
  function Dedup<T(==,!new)>(xs: seq<T>): (r: seq<T>)
    ensures NoDup(r)
    ensures forall x :: x in r <==> x in xs
    ensures |r| <= |xs|
  {
    if xs == [] then []
    else
      var init := xs[..|xs| - 1];
      assert xs == init + [xs[|xs| - 1]];
      SetAdd(Dedup(init), xs[|xs| - 1])
  }

  /** Position of the first occurrence of `x` in `xs`. */
  function FirstIndex<T(==,!new)>(xs: seq<T>, x: T): (i: nat)
    requires x in xs
    ensures i < |xs| && xs[i] == x && x !in xs[..i]
  {
    if xs[0] == x then 0
    else
      assert x in xs[1..];
      var k := FirstIndex(xs[1..], x);
      assert xs[..k + 1] == [xs[0]] + xs[1..][..k];
      k + 1
  }

  lemma FirstIndexUnique<T(!new)>(xs: seq<T>, x: T, i: nat)
    requires i < |xs| && xs[i] == x && x !in xs[..i]
    ensures FirstIndex(xs, x) == i
  {
  }

  /** Appending a value does not move the first occurrence of an older one. */
  lemma FirstIndexAppend<T(!new)>(p: seq<T>, y: T, x: T)
    requires x in p
    ensures x in p + [y] && FirstIndex(p + [y], x) == FirstIndex(p, x)
  {
    var k := FirstIndex(p, x);
    assert (p + [y])[..k] == p[..k];
    FirstIndexUnique(p + [y], x, k);
  }

  /** The de-duplicated list is ordered by first occurrence in the raw list. */
  ghost predicate FirstOccurrenceOrder<T(!new)>(xs: seq<T>, r: seq<T>)
    requires forall x :: x in r ==> x in xs
  {
    forall i, j :: 0 <= i < j < |r| ==> FirstIndex(xs, r[i]) < FirstIndex(xs, r[j])
  }

  lemma {:induction false} DedupOrder<T(!new)>(xs: seq<T>)
    ensures FirstOccurrenceOrder(xs, Dedup(xs))
  {
    if xs != [] {
      var init, last := xs[..|xs| - 1], xs[|xs| - 1];
      assert xs == init + [last];
      var d := Dedup(init);
      DedupOrder(init);
      forall x | x in init ensures FirstIndex(xs, x) == FirstIndex(init, x) {
        FirstIndexAppend(init, last, x);
      }
      if last !in d {
        FirstIndexUnique(xs, last, |xs| - 1);
        assert Dedup(xs) == d + [last];
        forall i, j | 0 <= i < j < |d| + 1
          ensures FirstIndex(xs, Dedup(xs)[i]) < FirstIndex(xs, Dedup(xs)[j])
        {
          if j == |d| {
            assert d[i] in init;
          } else {
            assert d[i] in init && d[j] in init;
          }
        }
      } else {
        forall i, j | 0 <= i < j < |d|
          ensures FirstIndex(xs, d[i]) < FirstIndex(xs, d[j])
        {
          assert d[i] in init && d[j] in init;
        }
      }
    }
  }

  lemma FirstIndexPrefix<T(!new)>(init: seq<T>, last: T)
    ensures forall x :: x in init ==> x in init + [last] && FirstIndex(init + [last], x) == FirstIndex(init, x)
  {
    forall x | x in init ensures x in init + [last] && FirstIndex(init + [last], x) == FirstIndex(init, x) {
      FirstIndexAppend(init, last, x);
    }
  }

  lemma OrderOnPrefix<T(!new)>(init: seq<T>, last: T, r: seq<T>)
    requires forall x :: x in r ==> x in init
    requires FirstOccurrenceOrder(init + [last], r)
    ensures FirstOccurrenceOrder(init, r)
  {
    FirstIndexPrefix(init, last);
    forall i, j | 0 <= i < j < |r| ensures FirstIndex(init, r[i]) < FirstIndex(init, r[j]) {
      assert r[i] in init && r[j] in init;
    }
  }

  /** A value seen for the first time at the very end has the largest first
      index, so a first-occurrence-ordered list must end with it. */
  lemma NewLastCloses<T(!new)>(init: seq<T>, last: T, r: seq<T>)
    requires last !in init
    requires forall x :: x in r <==> x in init + [last]
    requires FirstOccurrenceOrder(init + [last], r)
    ensures |r| > 0 && r[|r| - 1] == last
  {
    var xs := init + [last];
    assert last in r;
    var m :| 0 <= m < |r| && r[m] == last;
    FirstIndexUnique(xs, last, |init|);
    assert FirstIndex(xs, r[|r| - 1]) >= FirstIndex(xs, r[m]);
  }

  lemma MemberWitness<T(!new)>(r: seq<T>)
    ensures r == [] || r[0] in r
  {
  }

  /** The three properties above determine the result: any list without
      repeats, holding exactly the raw values, in first-occurrence order, is
      the de-duplicated list. */
  lemma {:induction false} DedupUnique<T(!new)>(xs: seq<T>, r: seq<T>)
    requires NoDup(r)
    requires forall x :: x in r <==> x in xs
    requires FirstOccurrenceOrder(xs, r)
    ensures r == Dedup(xs)
  {
    if xs != [] {
      var init, last := xs[..|xs| - 1], xs[|xs| - 1];
      assert xs == init + [last];
      if last in init {
        assert forall x :: x in xs <==> x in init;
        OrderOnPrefix(init, last, r);
        DedupUnique(init, r);
        assert last in Dedup(init);
        assert Dedup(xs) == Dedup(init);
      } else {
        NewLastCloses(init, last, r);
        var front := r[..|r| - 1];
        assert r == front + [last];
        assert NoDup(front);
        assert last !in front;
        forall x ensures x in front <==> x in init {
          if x in init {
            assert x in xs;
            assert x in r;
            var k :| 0 <= k < |r| && r[k] == x;
            assert k < |r| - 1 && front[k] == x;
          }
        }
        assert FirstOccurrenceOrder(xs, front);
        OrderOnPrefix(init, last, front);
        DedupUnique(init, front);
        assert last !in Dedup(init);
        assert Dedup(xs) == Dedup(init) + [last];
      }
    } else {
      MemberWitness(r);
    }
  }

  /** A list that already has no repeats is left as it is; in particular
      de-duplicating twice is de-duplicating once. */
  lemma {:induction false} DedupOfNoDup<T(!new)>(s: seq<T>)
    requires NoDup(s)
    ensures Dedup(s) == s
  {
    if s != [] {
      var init := s[..|s| - 1];
      assert NoDup(init);
      DedupOfNoDup(init);
      assert s[|s| - 1] !in init;
      assert init + [s[|s| - 1]] == s;
    }
  }

  lemma DedupIdempotent<T(!new)>(xs: seq<T>)
    ensures Dedup(Dedup(xs)) == Dedup(xs)
  {
    DedupOfNoDup(Dedup(xs));
  }

  /** `[t1, t2, t1]` becomes `[t1, t2]`; `[t, t, t]` becomes `[t]`. */
  lemma DedupExamples<T(!new)>(t: T, t1: T, t2: T)
    requires t1 != t2
    ensures Dedup([t1, t2, t1]) == [t1, t2]
    ensures Dedup([t, t, t]) == [t]
    ensures Dedup<T>([]) == []
  {
    assert [t1, t2, t1][..2] == [t1, t2];
    assert [t1, t2][..1] == [t1];
    assert [t, t, t][..2] == [t, t];
    assert [t, t][..1] == [t];
  }

  /** `availableSlots.map((s) => s.toString())` */
  function ToStrings(xs: seq<Time>): (ss: seq<string>)
    ensures |ss| == |xs|
  {
    if xs == [] then [] else ToStrings(xs[..|xs| - 1]) + [Decimal.ToDecimal(xs[|xs| - 1])]
  }

  /** `.map((s) => BigInt(s))`: fails as a whole when one string does not parse. */
  function ParseAll(ss: seq<string>): Option<seq<Time>> {
    if ss == [] then Some([])
    else
      match (ParseAll(ss[..|ss| - 1]), Decimal.ParseBigInt(ss[|ss| - 1]))
      case (Some(init), Some(v)) => Some(init + [v])
      case _ => None
  }

  lemma {:induction false} InToStrings(xs: seq<Time>, v: Time)
    ensures Decimal.ToDecimal(v) in ToStrings(xs) <==> v in xs
  {
    if xs != [] {
      var init := xs[..|xs| - 1];
      assert xs == init + [xs[|xs| - 1]];
      InToStrings(init, v);
      Decimal.ToDecimalInjective(v, xs[|xs| - 1]);
    }
  }

  lemma {:induction false} ToStringsAppend(xs: seq<Time>, v: Time)
    ensures ToStrings(xs + [v]) == ToStrings(xs) + [Decimal.ToDecimal(v)]
  {
    assert (xs + [v])[..|xs|] == xs;
  }

  /** Printing is injective, so de-duplicating the printed forms is printing
      the de-duplicated values. */
  lemma {:induction false} DedupToStrings(xs: seq<Time>)
    ensures Dedup(ToStrings(xs)) == ToStrings(Dedup(xs))
  {
    if xs != [] {
      var init, last := xs[..|xs| - 1], xs[|xs| - 1];
      DedupToStrings(init);
      InToStrings(Dedup(init), last);
      if last !in Dedup(init) {
        ToStringsAppend(Dedup(init), last);
      }
    }
  }

  lemma {:induction false} ParseAllToStrings(xs: seq<Time>)
    ensures ParseAll(ToStrings(xs)) == Some(xs)
  {
    if xs != [] {
      var init := xs[..|xs| - 1];
      var ss := ToStrings(xs);
      assert ss[..|ss| - 1] == ToStrings(init);
      ParseAllToStrings(init);
      Decimal.ParseToDecimal(xs[|xs| - 1]);
      assert init + [xs[|xs| - 1]] == xs;
    }
  }

  /** `uniqueSlots`: the string round trip through the `Set` never fails and
      yields exactly the value-level de-duplication of the raw slots. */
  function UniqueSlots(raw: seq<Time>): (r: Option<seq<Time>>)
    ensures r == Some(Dedup(raw))
  {
    DedupToStrings(raw);
    ParseAllToStrings(Dedup(raw));
    ParseAll(Dedup(ToStrings(raw)))
  }


  /** `selectedSlot?.toString() === slot.toString()`: no selection compares
      `undefined` with a string, which is false. */
  predicate IsSelected(selectedSlot: Option<Time>, slot: Time) {
    selectedSlot.Some? && Decimal.ToDecimal(selectedSlot.value) == Decimal.ToDecimal(slot)
  }

  lemma IsSelectedIff(selectedSlot: Option<Time>, slot: Time)
    ensures IsSelected(selectedSlot, slot) <==> selectedSlot == Some(slot)
  {
    if selectedSlot.Some? {
      Decimal.ToDecimalInjective(selectedSlot.value, slot);
    }
  }

  datatype SlotButton = SlotButton(slot: Time, selected: bool)

  /** What the picker renders. */
  datatype PickerView = Spinner | NoSlots | Grid(buttons: seq<SlotButton>)

  function Buttons(slots: seq<Time>, selectedSlot: Option<Time>): (bs: seq<SlotButton>)
    ensures |bs| == |slots|
    ensures forall i :: 0 <= i < |bs| ==> bs[i] == SlotButton(slots[i], IsSelected(selectedSlot, slots[i]))
  {
    seq(|slots|, i requires 0 <= i < |slots| => SlotButton(slots[i], IsSelected(selectedSlot, slots[i])))
  }

  /** The picker for one station and day: a spinner while the query loads, the
      "No available slots" notice for an absent or empty list, otherwise one
      button per distinct slot, at most one of them selected. */
  function Picker(isLoading: bool, availableSlots: Option<seq<Time>>, selectedSlot: Option<Time>): (v: PickerView)
    ensures isLoading <==> v.Spinner?
    ensures v.NoSlots? <==> !isLoading && (availableSlots.None? || availableSlots.value == [])
    ensures v.Grid? ==>
      && availableSlots.Some?
      && |v.buttons| > 0
      && |v.buttons| == |Dedup(availableSlots.value)|
      && (forall i :: 0 <= i < |v.buttons| ==> v.buttons[i].slot == Dedup(availableSlots.value)[i])
      && (forall i :: 0 <= i < |v.buttons| ==> (v.buttons[i].selected <==> selectedSlot == Some(v.buttons[i].slot)))
      && (forall i, j :: 0 <= i < j < |v.buttons| ==> !(v.buttons[i].selected && v.buttons[j].selected))
  {
    if isLoading then Spinner
    else if availableSlots.None? || |availableSlots.value| == 0 then NoSlots
    else
      var u := UniqueSlots(availableSlots.value).value;
      assert availableSlots.value[0] in u;
      var bs := Buttons(u, selectedSlot);
      assert forall i :: 0 <= i < |bs| ==> (bs[i].selected <==> selectedSlot == Some(bs[i].slot)) by {
        forall i | 0 <= i < |bs| ensures bs[i].selected <==> selectedSlot == Some(bs[i].slot) {
          IsSelectedIff(selectedSlot, u[i]);
        }
      }
      Grid(bs)
  }
}
