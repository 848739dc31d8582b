/**
 * The enum helpers of `warepy`: an enum class is its name and its members
 * in definition order, each member a name and a value.
 */
module Enums {
  import opened Wrappers
  import opened PyValues
  import opened Exceptions
  import opened StrFormat
  import opened MessageFormat
  import opened Messages
  import opened Warepy

  datatype Member = Member(name: string, value: Value)

  datatype EnumClass = EnumClass(name: string, members: seq<Member>)

  /** `[x.value for x in enum_class]`. */
  function Values(e: EnumClass): (vs: seq<Value>)
    ensures |vs| == |e.members|
    ensures forall k :: 0 <= k < |vs| ==> vs[k] == e.members[k].value
  {
    seq(|e.members|, k requires 0 <= k < |e.members| => e.members[k].value)
  }

  /** What `get_enum_values(*enum_classes)` returns. */
  function EnumValuesSpec(enums: seq<EnumClass>): seq<Value>
    decreases |enums|
  {
    if |enums| == 0 then [] else Values(enums[0]) + EnumValuesSpec(enums[1..])
  }

  /** `get_enum_values`: the member values of every class, class after class. */
  method GetEnumValues(enums: seq<EnumClass>) returns (sum: seq<Value>)
    ensures sum == EnumValuesSpec(enums)
  {
    sum := [];
    var i := 0;
    while i < |enums|
      invariant 0 <= i <= |enums|
      invariant sum + EnumValuesSpec(enums[i..]) == EnumValuesSpec(enums)
    {
      assert enums[i..][1..] == enums[i + 1..];
      sum := sum + Values(enums[i]);
      i := i + 1;
    }
    assert enums[i..] == [];
  }

  /** Concatenating class lists concatenates their values. */
  lemma {:induction false} EnumValuesAppend(a: seq<EnumClass>, b: seq<EnumClass>)
    ensures EnumValuesSpec(a + b) == EnumValuesSpec(a) + EnumValuesSpec(b)
    decreases |a|
  {
    if |a| > 0 {
      assert (a + b)[1..] == a[1..] + b;
      EnumValuesAppend(a[1..], b);
    } else {
      assert a + b == b;
    }
  }

  /** The values of one class are exactly its members' values. */
  lemma SingleEnumValues(e: EnumClass)
    ensures EnumValuesSpec([e]) == Values(e)
  {
    assert [e][1..] == [];
  }

  /** Every value comes from some member of some class, and every member's value is there. */
  lemma {:induction false} EnumValuesMembers(enums: seq<EnumClass>, v: Value)
    ensures v in EnumValuesSpec(enums) <==>
              exists i, k :: 0 <= i < |enums| && 0 <= k < |enums[i].members| && enums[i].members[k].value == v
    decreases |enums|
  {
    if |enums| > 0 {
      EnumValuesMembers(enums[1..], v);
      if v in Values(enums[0]) {
        var k :| 0 <= k < |Values(enums[0])| && Values(enums[0])[k] == v;
        assert enums[0].members[k].value == v;
      }
      if exists i, k :: 0 <= i < |enums| && 0 <= k < |enums[i].members| && enums[i].members[k].value == v {
        var i, k :| 0 <= i < |enums| && 0 <= k < |enums[i].members| && enums[i].members[k].value == v;
        if i == 0 {
          assert Values(enums[0])[k] == v;
        } else {
          assert enums[1..][i - 1] == enums[i];
        }
      }
    }
  }

  /** `value in get_enum_values(enum_class)`. */
  predicate Holds(e: EnumClass, value: Value) {
    PyIn(value, Values(e))
  }

  /** The message of the ValueError when no class holds the value. */
  function MissingMessage(value: Value): (r: Traced<string>)
    ensures r.outcome.Raised? ==> r.outcome.exc.cls == "ValueError"
  {
    BraceFree();
    OneField(EnumsMissing, ".", []);
    FormatMessageLogged(EnumsMissing + "{}" + ".", [value], DefaultPhrase, Backtick)
  }

  /** What `match_enum_containing_value(value, *enum_classes)` returns or raises. */
  function MatchSpec(value: Value, enums: seq<EnumClass>): (r: Traced<EnumClass>)
    ensures r.outcome.Ok? ==> r.log == []
    ensures r.outcome.Raised? ==> r.outcome.exc.cls == "ValueError"
    decreases |enums|
  {
    if |enums| == 0 then RaiseMessage("ValueError", MissingMessage(value))
    else if Holds(enums[0], value) then Traced(Ok(enums[0]), [])
    else MatchSpec(value, enums[1..])
  }

  /**
   * A class is returned exactly when one holds the value, and it is then the
   * first such class in argument order.
   */
  lemma {:induction false} MatchFirst(value: Value, enums: seq<EnumClass>)
    ensures var r := MatchSpec(value, enums);
            && (r.outcome.Ok? <==> exists i :: 0 <= i < |enums| && Holds(enums[i], value))
            && (r.outcome.Ok? ==>
                  exists i :: 0 <= i < |enums| && enums[i] == r.outcome.value && Holds(enums[i], value) &&
                    forall j :: 0 <= j < i ==> !Holds(enums[j], value))
    decreases |enums|
  {
    if |enums| > 0 && !Holds(enums[0], value) {
      var tail := enums[1..];
      MatchFirst(value, tail);
      assert forall j :: 1 <= j < |enums| ==> enums[j] == tail[j - 1];
      var r := MatchSpec(value, tail);
      if r.outcome.Ok? {
        var i :| 0 <= i < |tail| && tail[i] == r.outcome.value && Holds(tail[i], value) &&
                 forall j :: 0 <= j < i ==> !Holds(tail[j], value);
        assert enums[i + 1] == r.outcome.value;
      }
    }
  }

  /** `match_enum_containing_value`: the first class, in argument order, holding the value. */
  method MatchEnumContainingValue(value: Value, enums: seq<EnumClass>) returns (r: Traced<EnumClass>)
    ensures r == MatchSpec(value, enums)
  {
    var i := 0;
    while i < |enums|
      invariant 0 <= i <= |enums|
      invariant MatchSpec(value, enums[i..]) == MatchSpec(value, enums)
    {
      var values := GetEnumValues([enums[i]]);
      SingleEnumValues(enums[i]);
      if PyIn(value, values) {
        return Traced(Ok(enums[i]), []);
      }
      assert enums[i..][1..] == enums[i + 1..];
      i := i + 1;
    }
    r := RaiseMessage("ValueError", MissingMessage(value));
  }

  /** A value that stands for one field is named, enclosed, in the ValueError. */
  lemma MissingOneValue(value: Value, enums: seq<EnumClass>)
    requires forall i :: 0 <= i < |enums| ==> !Holds(enums[i], value)
    requires |Contribution(value, DefaultPhrase)| == 1
    ensures MatchSpec(value, enums) ==
              Traced(Raised(Error("ValueError", EnumsMissing + "`" + Str(Contribution(value, DefaultPhrase)[0]) + "`" + ".")), [])
  {
    BraceFree();
    var w := Contribution(value, DefaultPhrase)[0];
    OneValue(EnumsMissing, ".", value, DefaultPhrase, "`", w);
  }

  /**
   * A list of several values is unpacked into several fields for a text with
   * one: `format_message` itself fails, signs its ValueError and logs it.
   */
  lemma MissingListValue(value: Value, enums: seq<EnumClass>)
    requires forall i :: 0 <= i < |enums| ==> !Holds(enums[i], value)
    requires value.PyList? && |value.items| >= 2
    ensures var r := MatchSpec(value, enums);
            && r.outcome.Raised? && r.outcome.exc.cls == "ValueError"
            && Signed(r.outcome.exc) && r.outcome.exc.args[0] == Node("format_message")
            && |r.log| == 1
  {
    BraceFree();
    var text := EnumsMissing + "{}" + ".";
    OneField(EnumsMissing, ".", [""]);
    assert CollectVars([value], DefaultPhrase) == CollectVars([], DefaultPhrase) + Contribution(value, DefaultPhrase);
    assert FormatMessageSpec(text, [value], DefaultPhrase, Backtick).Raised?;
  }

  /** The keys of `joined_members`, in insertion order. */
  function Names(ms: seq<Member>): (ns: seq<string>)
    ensures |ns| == |ms|
    ensures forall k :: 0 <= k < |ms| ==> ns[k] == ms[k].name
  {
    seq(|ms|, k requires 0 <= k < |ms| => ms[k].name)
  }

  predicate DistinctNames(ms: seq<Member>) {
    forall i, j :: 0 <= i < j < |ms| ==> ms[i].name != ms[j].name
  }

  lemma DistinctSnoc(ms: seq<Member>, m: Member)
    requires DistinctNames(ms) && m.name !in Names(ms)
    ensures DistinctNames(ms + [m])
  {
    forall i, j | 0 <= i < j < |ms| + 1
      ensures (ms + [m])[i].name != (ms + [m])[j].name
    {
      if j == |ms| {
        assert Names(ms)[i] == ms[i].name;
      }
    }
  }

  /** The error `_add_item_if_not_exist` raises for a name already joined. */
  function DuplicateError(name: string): Exc {
    Error("ValueError", name + " key already in joined_members")
  }

  /** `joined_members`, and the error that stopped the adding if any. */
  datatype Merge = Merge(joined: seq<Member>, failure: Option<Exc>)

  /** Adding `items` one by one with `_add_item_if_not_exist`, stopping at the first repeated name. */
  function AddItems(joined: seq<Member>, items: seq<Member>): Merge
    decreases |items|
  {
    if |items| == 0 then Merge(joined, None)
    else if items[0].name in Names(joined) then Merge(joined, Some(DuplicateError(items[0].name)))
    else AddItems(joined + [items[0]], items[1..])
  }

  /** Every member of the classes, class after class. */
  function AllMembers(enums: seq<EnumClass>): seq<Member>
    decreases |enums|
  {
    if |enums| == 0 then [] else enums[0].members + AllMembers(enums[1..])
  }

  /** Adding keeps names distinct, and a run without a repeated name appends every item. */
  lemma {:induction false} AddItemsKeeps(joined: seq<Member>, items: seq<Member>)
    requires DistinctNames(joined)
    ensures DistinctNames(AddItems(joined, items).joined)
    ensures AddItems(joined, items).failure.None? ==> AddItems(joined, items).joined == joined + items
    decreases |items|
  {
    if |items| > 0 && items[0].name !in Names(joined) {
      var next := joined + [items[0]];
      DistinctSnoc(joined, items[0]);
      AddItemsKeeps(next, items[1..]);
      assert next + items[1..] == joined + items;
    } else if |items| == 0 {
      assert joined + items == joined;
    }
  }

  /** Adding succeeds exactly when all names, old and new, are distinct. */
  lemma {:induction false} AddItemsSucceeds(joined: seq<Member>, items: seq<Member>)
    requires DistinctNames(joined)
    ensures AddItems(joined, items).failure.None? <==> DistinctNames(joined + items)
    decreases |items|
  {
    if |items| == 0 {
      assert joined + items == joined;
    } else if items[0].name in Names(joined) {
      var i :| 0 <= i < |joined| && Names(joined)[i] == items[0].name;
      assert (joined + items)[i].name == (joined + items)[|joined|].name;
    } else {
      var next := joined + [items[0]];
      DistinctSnoc(joined, items[0]);
      AddItemsSucceeds(next, items[1..]);
      assert next + items[1..] == joined + items;
    }
  }

  /** A failed run stops at the first item whose name is already joined, keeping the items before it. */
  lemma {:induction false} AddItemsStops(joined: seq<Member>, items: seq<Member>)
    requires AddItems(joined, items).failure.Some?
    ensures var m := AddItems(joined, items);
            exists k :: 0 <= k < |items| && m.joined == joined + items[..k]
                        && items[k].name in Names(m.joined)
                        && m.failure == Some(DuplicateError(items[k].name))
    decreases |items|
  {
    var m := AddItems(joined, items);
    if items[0].name in Names(joined) {
      assert m.joined == joined + items[..0];
    } else {
      var next := joined + [items[0]];
      AddItemsStops(next, items[1..]);
      var k :| 0 <= k < |items[1..]| && m.joined == next + items[1..][..k]
               && items[1..][k].name in Names(m.joined)
               && m.failure == Some(DuplicateError(items[1..][k].name));
      assert next + items[1..][..k] == joined + items[..k + 1];
    }
  }

  /**
   * Adding never removes or reorders, keeps names distinct, and stops at the
   * first item whose name is already there, keeping everything added before it.
   */
  lemma AddItemsSpec(joined: seq<Member>, items: seq<Member>)
    requires DistinctNames(joined)
    ensures var m := AddItems(joined, items);
            && DistinctNames(m.joined)
            && (m.failure.None? <==> DistinctNames(joined + items))
            && (m.failure.None? ==> m.joined == joined + items)
            && (m.failure.Some? ==> exists k :: 0 <= k < |items| && m.joined == joined + items[..k]
                                      && items[k].name in Names(m.joined)
                                      && m.failure == Some(DuplicateError(items[k].name)))
  {
    AddItemsKeeps(joined, items);
    AddItemsSucceeds(joined, items);
    if AddItems(joined, items).failure.Some? {
      AddItemsStops(joined, items);
    }
  }

  /** Once the inherited members are in, adding them again fails at the first one. */
  lemma RepeatedInherited(joined: seq<Member>, inherited: seq<EnumClass>, applied: EnumClass)
    requires AllMembers(inherited) <= joined && |AllMembers(inherited)| > 0
    ensures AddItems(joined, AllMembers(inherited) + applied.members) ==
              Merge(joined, Some(DuplicateError(AllMembers(inherited)[0].name)))
  {
    var items := AllMembers(inherited) + applied.members;
    assert items[0] == joined[0];
    assert Names(joined)[0] == items[0].name;
  }

  /**
   * The members joined by a decorator `extend_enum(*inherited)`: the dict
   * `joined_members` of its closure outlives each application.
   */
  class EnumExtender {
    const inherited: seq<EnumClass>
    var joined: seq<Member>

    ghost predicate Valid()
      reads this
    {
      DistinctNames(joined)
    }

    constructor (inherited: seq<EnumClass>)
      ensures this.inherited == inherited && joined == [] && Valid()
    {
      this.inherited := inherited;
      joined := [];
    }

    /** `_add_item_if_not_exist`. */
    method AddItem(item: Member) returns (failure: Option<Exc>)
      requires Valid()
      modifies this
      ensures Valid()
      ensures Merge(joined, failure) == AddItems(old(joined), [item])
    {
      assert [item][1..] == [];
      if item.name !in Names(joined) {
        DistinctSnoc(joined, item);
        joined := joined + [item];
        failure := None;
      } else {
        failure := Some(DuplicateError(item.name));
      }
    }

    /** The inner loop over one class: adds `members` in order, or stops at the first failure. */
    method AddAll(members: seq<Member>, ghost rest: seq<Member>) returns (failure: Option<Exc>)
      requires Valid()
      modifies this
      ensures Valid()
      ensures failure.None? ==> AddItems(joined, rest) == AddItems(old(joined), members + rest)
      ensures failure.Some? ==> Merge(joined, failure) == AddItems(old(joined), members + rest)
    {
      var k := 0;
      while k < |members|
        invariant 0 <= k <= |members|
        invariant Valid()
        invariant AddItems(joined, members[k..] + rest) == AddItems(old(joined), members + rest)
      {
        assert (members[k..] + rest)[1..] == members[k + 1..] + rest;
        failure := AddItem(members[k]);
        if failure.Some? {
          return;
        }
        k := k + 1;
      }
      assert members[k..] + rest == rest;
      failure := None;
    }

    /**
     * Applying the decorator to `applied`: the inherited members, then the
     * applied ones, are joined; the result enum holds everything joined.
     */
    method Apply(applied: EnumClass) returns (r: Outcome<EnumClass>)
      requires Valid()
      modifies this
      ensures Valid()
      ensures var m := AddItems(old(joined), AllMembers(inherited) + applied.members);
              && joined == m.joined
              && r == if m.failure.Some? then Raised(m.failure.value) else Ok(EnumClass(applied.name, m.joined))
    {
      var i := 0;
      while i < |inherited|
        invariant 0 <= i <= |inherited|
        invariant Valid()
        invariant AddItems(joined, AllMembers(inherited[i..]) + applied.members)
                  == AddItems(old(joined), AllMembers(inherited) + applied.members)
      {
        assert inherited[i..][1..] == inherited[i + 1..];
        ghost var rest := AllMembers(inherited[i + 1..]) + applied.members;
        assert AllMembers(inherited[i..]) + applied.members == inherited[i].members + rest;
        var failure := AddAll(inherited[i].members, rest);
        if failure.Some? {
          r := Raised(failure.value);
          return;
        }
        i := i + 1;
      }
      assert AllMembers(inherited[i..]) + applied.members == applied.members + [];
      var failure := AddAll(applied.members, []);
      if failure.Some? {
        r := Raised(failure.value);
        return;
      }
      r := Ok(EnumClass(applied.name, joined));
    }
  }

  /**
   * A fresh decorator succeeds exactly when all names are distinct, and the
   * result holds the inherited members, then the applied ones.
   */
  lemma FirstApply(inherited: seq<EnumClass>, applied: EnumClass)
    ensures var items := AllMembers(inherited) + applied.members;
            var m := AddItems([], items);
            && (m.failure.None? <==> DistinctNames(items))
            && (m.failure.None? ==> m.joined == items)
  {
    var items := AllMembers(inherited) + applied.members;
    AddItemsSpec([], items);
    assert [] + items == items;
  }
}
