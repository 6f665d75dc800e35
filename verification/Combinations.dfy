/** Attribute combinations: the key that compares them and the generator that enumerates them. */
module Combinations {
  import opened Prelude
  import opened Model

  type Attributes = map<string, string>
  type Item = (string, string)

  // ---- The key: the items in the order of their names ----

  predicate AtMost(a: string, b: string)
  {
    a == "" || (b != "" && (a[0] < b[0] || (a[0] == b[0] && AtMost(a[1..], b[1..]))))
  }

  lemma {:induction false} AtMostTotal(a: string, b: string)
    ensures AtMost(a, b) || AtMost(b, a)
    ensures AtMost(a, b) && AtMost(b, a) ==> a == b
  {
    if a != "" && b != "" && a[0] == b[0] {
      AtMostTotal(a[1..], b[1..]);
      assert a == [a[0]] + a[1..] && b == [b[0]] + b[1..];
    }
  }

  lemma {:induction false} AtMostTransitive(a: string, b: string, c: string)
    requires AtMost(a, b) && AtMost(b, c)
    ensures AtMost(a, c)
  {
    if a != "" && b != "" && c != "" && a[0] == b[0] == c[0] {
      AtMostTransitive(a[1..], b[1..], c[1..]);
    }
  }

  /** A common first character does not matter. */
  lemma AtMostSameHead(c: char, s: string, t: string)
    ensures AtMost([c] + s, [c] + t) <==> AtMost(s, t)
  {
    assert ([c] + s)[1..] == s && ([c] + t)[1..] == t;
  }

  /** Strings are compared at their first difference, and a string comes before its extensions. */
  lemma {:induction false} AtMostIsDictionaryOrder(common: string, x: char, a: string, y: char, b: string)
    ensures AtMost(common, common + a)
    ensures x != y ==> (AtMost(common + ([x] + a), common + ([y] + b)) <==> x < y)
  {
    if common == "" {
      assert common + ([x] + a) == [x] + a && common + ([y] + b) == [y] + b;
    } else {
      var c, rest := common[0], common[1..];
      AtMostIsDictionaryOrder(rest, x, a, y, b);
      assert common == [c] + rest;
      AtMostSameHead(c, rest, rest + a);
      assert common + a == [c] + (rest + a);
      AtMostSameHead(c, rest + ([x] + a), rest + ([y] + b));
      assert common + ([x] + a) == [c] + (rest + ([x] + a));
      assert common + ([y] + b) == [c] + (rest + ([y] + b));
    }
  }

  ghost predicate Least(names: set<string>, k: string)
  {
    k in names && forall j :: j in names ==> AtMost(k, j)
  }

  lemma {:induction false} LeastExists(names: set<string>)
    requires names != {}
    ensures exists k :: Least(names, k)
  {
    var x :| x in names;
    AtMostTotal(x, x);
    if names == {x} {
      assert Least(names, x);
    } else {
      LeastExists(names - {x});
      var y :| Least(names - {x}, y);
      AtMostTotal(x, y);
      var k := if AtMost(x, y) then x else y;
      forall j | j in names ensures AtMost(k, j) {
        if j != x && k == x {
          AtMostTransitive(x, y, j);
        }
      }
      assert Least(names, k);
    }
  }

  function LeastName(m: Attributes): (k: string)
    requires m != map[]
    ensures Least(m.Keys, k)
  {
    assert exists k :: k in m && forall j :: j in m ==> AtMost(k, j) by {
      LeastExists(m.Keys);
      var k :| Least(m.Keys, k);
      assert k in m;
    }
    assert forall a, b :: AtMost(a, b) && AtMost(b, a) ==> a == b by {
      forall a, b ensures AtMost(a, b) && AtMost(b, a) ==> a == b {
        AtMostTotal(a, b);
      }
    }
    var k :| k in m && forall j :: j in m ==> AtMost(k, j);
    k
  }

  /** tuple(sorted(attributes.items())). */
  function AttributesKey(m: Attributes): seq<Item>
  {
    if m == map[] then []
    else
      var k := LeastName(m);
      [(k, m[k])] + AttributesKey(m - {k})
  }

  function FromItems(items: seq<Item>): Attributes
  {
    if items == [] then map[] else FromItems(items[1..])[items[0].0 := items[0].1]
  }

  lemma {:induction false} KeyRoundTrip(m: Attributes)
    ensures FromItems(AttributesKey(m)) == m
  {
    if m != map[] {
      KeyRoundTrip(m - {LeastName(m)});
    }
  }

  /** Equal keys mean equal attributes, whatever order the names were written in. */
  lemma KeyIdentifies(a: Attributes, b: Attributes)
    ensures AttributesKey(a) == AttributesKey(b) <==> a == b
    ensures AttributesKey(a) == [] <==> a == map[]
  {
    KeyRoundTrip(a);
    KeyRoundTrip(b);
  }

  predicate Ascending(items: seq<Item>)
  {
    forall i, j :: 0 <= i < j < |items| ==> AtMost(items[i].0, items[j].0) && items[i].0 != items[j].0
  }

  lemma AscendingPrepend(x: Item, items: seq<Item>)
    requires Ascending(items) && forall y :: y in items ==> AtMost(x.0, y.0) && x.0 != y.0
    ensures Ascending([x] + items)
  {
    var all := [x] + items;
    forall i, j | 0 <= i < j < |all| ensures AtMost(all[i].0, all[j].0) && all[i].0 != all[j].0 {
      assert all[j] == items[j - 1] && items[j - 1] in items;
      assert i > 0 ==> all[i] == items[i - 1];
    }
  }

  /** The key is what sorting the items gives: exactly the items, their names ascending. */
  lemma {:induction false} KeyIsSortedItems(m: Attributes)
    ensures forall x :: x in AttributesKey(m) <==> x.0 in m && m[x.0] == x.1
    ensures Ascending(AttributesKey(m))
  {
    if m != map[] {
      var k := LeastName(m);
      var rest := AttributesKey(m - {k});
      KeyIsSortedItems(m - {k});
      AscendingPrepend((k, m[k]), rest);
      forall x ensures x in AttributesKey(m) <==> x.0 in m && m[x.0] == x.1 {
        assert x in AttributesKey(m) <==> x == (k, m[k]) || x in rest;
      }
    }
  }

  // ---- The generator ----

  datatype Axis = Axis(name: string, values: seq<string>)

  function Extend(combo: Attributes, axis: Axis): (r: seq<Attributes>)
    ensures |r| == |axis.values|
  {
    seq(|axis.values|, i requires 0 <= i < |axis.values| => combo[axis.name := axis.values[i]])
  }

  function ExtendAll(combos: seq<Attributes>, axis: Axis): seq<Attributes>
  {
    if combos == [] then []
    else ExtendAll(combos[..|combos| - 1], axis) + Extend(combos[|combos| - 1], axis)
  }

  /** axes.reduce(flatMap) from one empty combination. */
  function CartesianProduct(axes: seq<Axis>): seq<Attributes>
  {
    if axes == [] then [map[]]
    else ExtendAll(CartesianProduct(axes[..|axes| - 1]), axes[|axes| - 1])
  }

  function Names(axes: seq<Axis>): set<string>
  {
    set a | a in axes :: a.name
  }

  /** A later axis has the same name and overwrites this one. */
  predicate NamedAgain(axes: seq<Axis>, i: nat)
    requires i < |axes|
  {
    exists j :: i < j < |axes| && axes[j].name == axes[i].name
  }

  /** One value under every name, of the last axis that has the name, and nothing else. */
  predicate IsChoice(axes: seq<Axis>, m: Attributes)
  {
    && m.Keys == Names(axes)
    && forall i :: 0 <= i < |axes| && !NamedAgain(axes, i) ==> m[axes[i].name] in axes[i].values
  }

  /** No axis repeats a value, and an axis that is overwritten has a single one. */
  predicate NothingRepeats(axes: seq<Axis>)
  {
    forall i :: 0 <= i < |axes| ==> NoDuplicates(axes[i].values) && (NamedAgain(axes, i) ==> |axes[i].values| == 1)
  }

  predicate DistinctAxes(axes: seq<Axis>)
  {
    && (forall i, j :: 0 <= i < j < |axes| ==> axes[i].name != axes[j].name)
    && (forall i :: 0 <= i < |axes| ==> NoDuplicates(axes[i].values))
  }

  predicate NonEmpty(axes: seq<Axis>)
  {
    forall i :: 0 <= i < |axes| ==> axes[i].values != []
  }

  // ---- Combinations seen without some of their names ----

  function Outside(combos: seq<Attributes>, names: set<string>): (r: seq<Attributes>)
    ensures |r| == |combos|
  {
    seq(|combos|, i requires 0 <= i < |combos| => combos[i] - names)
  }

  lemma OutsideAppend(a: seq<Attributes>, b: seq<Attributes>, names: set<string>)
    ensures Outside(a + b, names) == Outside(a, names) + Outside(b, names)
  {
  }

  lemma OutsideNothing(combos: seq<Attributes>)
    ensures Outside(combos, {}) == combos
  {
    forall i | 0 <= i < |combos| ensures Outside(combos, {})[i] == combos[i] {
      assert combos[i] - {} == combos[i];
    }
  }

  /** Extending by an axis whose name is not looked at multiplies every combination. */
  lemma HiddenExtend(c: Attributes, axis: Axis, names: set<string>, i: nat)
    requires axis.name in names && i < |axis.values|
    ensures Outside(Extend(c, axis), names)[i] == c - names
  {
  }

  lemma {:induction false} HiddenMembers(combos: seq<Attributes>, axis: Axis, names: set<string>, x: Attributes)
    requires axis.name in names && axis.values != []
    ensures x in Outside(ExtendAll(combos, axis), names) <==> x in Outside(combos, names)
  {
    if combos != [] {
      var front, last := combos[..|combos| - 1], combos[|combos| - 1];
      HiddenMembers(front, axis, names, x);
      OutsideAppend(ExtendAll(front, axis), Extend(last, axis), names);
      OutsideAppend(front, [last], names);
      assert combos == front + [last];
      var block := Outside(Extend(last, axis), names);
      forall i | 0 <= i < |block| ensures block[i] == last - names {
        HiddenExtend(last, axis, names, i);
      }
      assert block[0] in block && Outside([last], names) == [last - names];
    }
  }

  lemma {:induction false} HiddenSingle(combos: seq<Attributes>, axis: Axis, names: set<string>)
    requires axis.name in names && |axis.values| == 1
    ensures Outside(ExtendAll(combos, axis), names) == Outside(combos, names)
  {
    if combos != [] {
      var front, last := combos[..|combos| - 1], combos[|combos| - 1];
      HiddenSingle(front, axis, names);
      OutsideAppend(ExtendAll(front, axis), Extend(last, axis), names);
      OutsideAppend(front, [last], names);
      assert combos == front + [last];
      HiddenExtend(last, axis, names, 0);
      assert Outside(Extend(last, axis), names) == Outside([last], names);
    }
  }

  lemma HiddenSeveral(combos: seq<Attributes>, axis: Axis, names: set<string>)
    requires axis.name in names && 2 <= |axis.values| && combos != []
    ensures !NoDuplicates(Outside(ExtendAll(combos, axis), names))
  {
    var front, last := combos[..|combos| - 1], combos[|combos| - 1];
    OutsideAppend(ExtendAll(front, axis), Extend(last, axis), names);
    HiddenExtend(last, axis, names, 0);
    HiddenExtend(last, axis, names, 1);
    var all, k := Outside(ExtendAll(combos, axis), names), |ExtendAll(front, axis)|;
    assert all[k] == all[k + 1];
  }

  /** A combination extended under a name that is looked at shows the value and the rest. */
  lemma ShownExtend(c: Attributes, axis: Axis, names: set<string>, i: nat)
    requires axis.name !in names && i < |axis.values|
    ensures var x := Outside(Extend(c, axis), names)[i];
      axis.name in x && x[axis.name] == axis.values[i] && x - {axis.name} == c - (names + {axis.name})
  {
    var x := Outside(Extend(c, axis), names)[i];
    assert x == c[axis.name := axis.values[i]] - names;
  }

  lemma ShownBlock(c: Attributes, axis: Axis, names: set<string>, x: Attributes)
    requires axis.name !in names
    ensures x in Outside(Extend(c, axis), names) <==>
      axis.name in x && x[axis.name] in axis.values && x - {axis.name} == c - (names + {axis.name})
  {
    var block := Outside(Extend(c, axis), names);
    if x in block {
      var i :| 0 <= i < |block| && block[i] == x;
      ShownExtend(c, axis, names, i);
    }
    if axis.name in x && x[axis.name] in axis.values && x - {axis.name} == c - (names + {axis.name}) {
      var i :| 0 <= i < |axis.values| && axis.values[i] == x[axis.name];
      ShownExtend(c, axis, names, i);
      assert block[i] == (block[i] - {axis.name})[axis.name := axis.values[i]];
      assert x == (x - {axis.name})[axis.name := axis.values[i]];
    }
  }

  lemma {:induction false} ShownMembers(combos: seq<Attributes>, axis: Axis, names: set<string>, x: Attributes)
    requires axis.name !in names
    ensures x in Outside(ExtendAll(combos, axis), names) <==>
      axis.name in x && x[axis.name] in axis.values && x - {axis.name} in Outside(combos, names + {axis.name})
  {
    if combos != [] {
      var front, last := combos[..|combos| - 1], combos[|combos| - 1];
      ShownMembers(front, axis, names, x);
      ShownBlock(last, axis, names, x);
      OutsideAppend(ExtendAll(front, axis), Extend(last, axis), names);
      OutsideAppend(front, [last], names + {axis.name});
      assert combos == front + [last];
      assert Outside([last], names + {axis.name}) == [last - (names + {axis.name})];
    }
  }

  lemma BlockDistinct(c: Attributes, axis: Axis, names: set<string>)
    requires axis.name !in names
    ensures NoDuplicates(Outside(Extend(c, axis), names)) <==> NoDuplicates(axis.values)
  {
    var block := Outside(Extend(c, axis), names);
    forall i, j | 0 <= i < |block| && 0 <= j < |block| ensures block[i] == block[j] <==> axis.values[i] == axis.values[j] {
      ShownExtend(c, axis, names, i);
      ShownExtend(c, axis, names, j);
      assert block[i] == c[axis.name := axis.values[i]] - names;
      assert block[j] == c[axis.name := axis.values[j]] - names;
    }
  }

  lemma Joined<T>(a: seq<T>, b: seq<T>)
    ensures NoDuplicates(a + b) <==> NoDuplicates(a) && NoDuplicates(b) && forall x :: x in b ==> x !in a
  {
    var all := a + b;
    if NoDuplicates(all) {
      forall i, j | 0 <= i < j < |a| ensures a[i] != a[j] {
        assert all[i] == a[i] && all[j] == a[j];
      }
      forall i, j | 0 <= i < j < |b| ensures b[i] != b[j] {
        assert all[|a| + i] == b[i] && all[|a| + j] == b[j];
      }
      forall x | x in b ensures x !in a {
        var j :| 0 <= j < |b| && b[j] == x;
        assert all[|a| + j] == x;
        forall i | 0 <= i < |a| ensures a[i] != x {
          assert all[i] == a[i];
        }
      }
    }
    if NoDuplicates(a) && NoDuplicates(b) && forall x :: x in b ==> x !in a {
      forall i, j | 0 <= i < j < |all| ensures all[i] != all[j] {
        assert i < |a| <= j ==> all[i] in a && all[j] in b;
      }
    }
  }

  /** Nothing repeats after extending under a new name exactly when neither the values repeat nor the
      combinations without the name. */
  lemma {:induction false} ShownDistinct(combos: seq<Attributes>, axis: Axis, names: set<string>)
    requires axis.name !in names && combos != [] && axis.values != []
    ensures NoDuplicates(Outside(ExtendAll(combos, axis), names)) <==>
      NoDuplicates(axis.values) && NoDuplicates(Outside(combos, names + {axis.name}))
  {
    var front, last := combos[..|combos| - 1], combos[|combos| - 1];
    var a, b := Outside(ExtendAll(front, axis), names), Outside(Extend(last, axis), names);
    var c, d := Outside(front, names + {axis.name}), [last - (names + {axis.name})];
    OutsideAppend(ExtendAll(front, axis), Extend(last, axis), names);
    OutsideAppend(front, [last], names + {axis.name});
    assert combos == front + [last] && Outside([last], names + {axis.name}) == d;
    BlockDistinct(last, axis, names);
    Joined(a, b);
    Joined(c, d);
    if front != [] {
      ShownDistinct(front, axis, names);
    }
    BlocksApart(front, last, axis, names);
  }

  lemma BlocksApart(front: seq<Attributes>, last: Attributes, axis: Axis, names: set<string>)
    requires axis.name !in names && axis.values != []
    ensures (forall x :: x in Outside(Extend(last, axis), names) ==> x !in Outside(ExtendAll(front, axis), names))
      <==> last - (names + {axis.name}) !in Outside(front, names + {axis.name})
  {
    var a, b := Outside(ExtendAll(front, axis), names), Outside(Extend(last, axis), names);
    forall x | x in b ensures x in a <==> last - (names + {axis.name}) in Outside(front, names + {axis.name}) {
      ShownBlock(last, axis, names, x);
      ShownMembers(front, axis, names, x);
    }
    assert b[0] in b;
  }

  // ---- The generator, for any axes ----

  /** What the axes allow m to be outside the given names, from the last axis to the first. */
  predicate Chosen(axes: seq<Axis>, names: set<string>, m: Attributes)
  {
    if axes == [] then m - names == map[]
    else
      var last := axes[|axes| - 1];
      && (last.name !in names ==> last.name in m && m[last.name] in last.values)
      && Chosen(axes[..|axes| - 1], names + {last.name}, m)
  }

  /** No axis repeats what can be seen of it outside the given names. */
  predicate Apart(axes: seq<Axis>, names: set<string>)
  {
    if axes == [] then true
    else
      var last := axes[|axes| - 1];
      && (if last.name in names then |last.values| == 1 else NoDuplicates(last.values))
      && Apart(axes[..|axes| - 1], names + {last.name})
  }

  lemma {:induction false} ProductMembers(axes: seq<Axis>, names: set<string>, m: Attributes)
    requires NonEmpty(axes)
    ensures m - names in Outside(CartesianProduct(axes), names) <==> Chosen(axes, names, m)
  {
    if axes == [] {
      assert Outside([map[]], names) == [map[]];
    } else {
      var front, last := axes[..|axes| - 1], axes[|axes| - 1];
      ProductMembers(front, names + {last.name}, m);
      if last.name in names {
        assert names + {last.name} == names;
        HiddenMembers(CartesianProduct(front), last, names, m - names);
      } else {
        ShownMembers(CartesianProduct(front), last, names, m - names);
        assert (m - names) - {last.name} == m - (names + {last.name});
      }
    }
  }

  lemma {:induction false} ProductDistinct(axes: seq<Axis>, names: set<string>)
    requires NonEmpty(axes)
    ensures CartesianProduct(axes) != []
    ensures NoDuplicates(Outside(CartesianProduct(axes), names)) <==> Apart(axes, names)
  {
    if axes != [] {
      var front, last := axes[..|axes| - 1], axes[|axes| - 1];
      var combos := CartesianProduct(front);
      ProductDistinct(front, names + {last.name});
      if last.name !in names {
        ShownDistinct(combos, last, names);
      } else if |last.values| == 1 {
        assert names + {last.name} == names;
        HiddenSingle(combos, last, names);
      } else {
        HiddenSeveral(combos, last, names);
      }
      ExtendAllLength(combos, last);
    }
  }

  // ---- The same without the recursion ----

  lemma NamedAgainFront(axes: seq<Axis>, i: nat)
    requires i < |axes| - 1
    ensures NamedAgain(axes, i) <==> NamedAgain(axes[..|axes| - 1], i) || axes[i].name == axes[|axes| - 1].name
  {
    var front := axes[..|axes| - 1];
    assert front[i] == axes[i];
    if NamedAgain(axes, i) && axes[i].name != axes[|axes| - 1].name {
      var j :| i < j < |axes| && axes[j].name == axes[i].name;
      assert front[j] == axes[j];
    }
    if NamedAgain(front, i) {
      var j :| i < j < |front| && front[j].name == front[i].name;
      assert axes[j] == front[j];
    }
  }

  lemma {:induction false} ApartIs(axes: seq<Axis>, names: set<string>)
    requires NonEmpty(axes)
    ensures Apart(axes, names) <==> forall i :: 0 <= i < |axes| ==>
      NoDuplicates(axes[i].values) && (axes[i].name in names || NamedAgain(axes, i) ==> |axes[i].values| == 1)
  {
    if axes != [] {
      var front, last := axes[..|axes| - 1], axes[|axes| - 1];
      ApartIs(front, names + {last.name});
      forall i | 0 <= i < |front|
        ensures front[i] == axes[i]
        ensures front[i].name in names + {last.name} || NamedAgain(front, i) <==> axes[i].name in names || NamedAgain(axes, i)
      {
        NamedAgainFront(axes, i);
      }
      assert !NamedAgain(axes, |axes| - 1);
    }
  }

  ghost predicate ChosenAt(axes: seq<Axis>, names: set<string>, m: Attributes, i: nat)
    requires i < |axes|
  {
    axes[i].name !in names && !NamedAgain(axes, i) ==> axes[i].name in m && m[axes[i].name] in axes[i].values
  }

  ghost predicate AllChosen(axes: seq<Axis>, names: set<string>, m: Attributes)
  {
    forall i :: 0 <= i < |axes| ==> ChosenAt(axes, names, m, i)
  }

  lemma AllChosenStep(front: seq<Axis>, last: Axis, names: set<string>, m: Attributes)
    ensures AllChosen(front + [last], names, m) <==>
      (last.name !in names ==> last.name in m && m[last.name] in last.values) && AllChosen(front, names + {last.name}, m)
  {
    var axes := front + [last];
    assert axes[..|axes| - 1] == front;
    forall i | 0 <= i < |front| ensures ChosenAt(axes, names, m, i) <==> ChosenAt(front, names + {last.name}, m, i) {
      NamedAgainFront(axes, i);
    }
    assert ChosenAt(axes, names, m, |front|) <==>
      (last.name !in names ==> last.name in m && m[last.name] in last.values);
  }

  lemma NamesAppend(front: seq<Axis>, last: Axis)
    ensures Names(front + [last]) == Names(front) + {last.name}
  {
    assert forall a :: a in front + [last] <==> a in front || a == last;
  }

  lemma NothingLeft(m: Attributes, names: set<string>)
    ensures m - names == map[] <==> m.Keys <= names
  {
    forall k | k in m ensures k in m - names <==> k !in names {
    }
    assert m - names == map[] <==> forall k :: k in m ==> k !in m - names;
  }

  lemma {:induction false} ChosenIs(axes: seq<Axis>, names: set<string>, m: Attributes)
    ensures Chosen(axes, names, m) <==> m.Keys <= Names(axes) + names && AllChosen(axes, names, m)
  {
    if axes == [] {
      assert Names(axes) + names == names;
      NothingLeft(m, names);
    } else {
      var front, last := axes[..|axes| - 1], axes[|axes| - 1];
      assert axes == front + [last];
      ChosenIs(front, names + {last.name}, m);
      NamesAppend(front, last);
      AllChosenStep(front, last, names, m);
      assert Names(front) + (names + {last.name}) == Names(axes) + names;
    }
  }

  /** Every name has a last axis. */
  lemma {:induction false} LastOfName(axes: seq<Axis>, i: nat) returns (j: nat)
    requires i < |axes|
    ensures i <= j < |axes| && axes[j].name == axes[i].name && !NamedAgain(axes, j)
    decreases |axes| - i
  {
    if NamedAgain(axes, i) {
      var k :| i < k < |axes| && axes[k].name == axes[i].name;
      j := LastOfName(axes, k);
    } else {
      j := i;
    }
  }

  lemma ChoiceIsChosen(axes: seq<Axis>, m: Attributes)
    ensures Chosen(axes, {}, m) <==> IsChoice(axes, m)
  {
    ChosenIs(axes, {}, m);
    if Chosen(axes, {}, m) {
      forall n | n in Names(axes) ensures n in m {
        var a :| a in axes && a.name == n;
        var i :| 0 <= i < |axes| && axes[i] == a;
        var j := LastOfName(axes, i);
        assert ChosenAt(axes, {}, m, j);
      }
      forall i | 0 <= i < |axes| && !NamedAgain(axes, i) ensures m[axes[i].name] in axes[i].values {
        assert ChosenAt(axes, {}, m, i);
      }
    }
    if IsChoice(axes, m) {
      forall i | 0 <= i < |axes| ensures ChosenAt(axes, {}, m, i) {
        assert axes[i] in axes && axes[i].name in Names(axes);
      }
    }
  }

  /** The generator on any non-empty axes, names repeated or not: it yields exactly the choices, and none of
      them twice exactly when no axis repeats a value and every overwritten axis has a single one. */
  lemma GeneratorIs(axes: seq<Axis>)
    requires NonEmpty(axes)
    ensures forall m :: m in CartesianProduct(axes) <==> IsChoice(axes, m)
    ensures NoDuplicates(CartesianProduct(axes)) <==> NothingRepeats(axes)
  {
    OutsideNothing(CartesianProduct(axes));
    forall m ensures m in CartesianProduct(axes) <==> IsChoice(axes, m) {
      assert m - {} == m;
      ProductMembers(axes, {}, m);
      ChoiceIsChosen(axes, m);
    }
    ProductDistinct(axes, {});
    ApartIs(axes, {});
  }

  function Combinations(axes: seq<Axis>): nat
  {
    if axes == [] then 1 else Combinations(axes[..|axes| - 1]) * |axes[|axes| - 1].values|
  }

  lemma {:induction false} ExtendAllLength(combos: seq<Attributes>, axis: Axis)
    ensures |ExtendAll(combos, axis)| == |combos| * |axis.values|
  {
    if combos != [] {
      ExtendAllLength(combos[..|combos| - 1], axis);
    }
  }

  lemma {:induction false} ProductLength(axes: seq<Axis>)
    ensures |CartesianProduct(axes)| == Combinations(axes)
    ensures !NonEmpty(axes) ==> Combinations(axes) == 0
  {
    if axes != [] {
      var front := axes[..|axes| - 1];
      ProductLength(front);
      ExtendAllLength(CartesianProduct(front), axes[|axes| - 1]);
    }
  }

  /** Every choice exactly once: with different names and no repeated value the generator lists the choices,
      all of them, without repetition, and as many as the product of the axis lengths. */
  lemma EveryChoiceOnce(axes: seq<Axis>)
    requires DistinctAxes(axes)
    ensures NoDuplicates(CartesianProduct(axes))
    ensures forall m :: m in CartesianProduct(axes) <==> IsChoice(axes, m)
    ensures forall i :: 0 <= i < |axes| ==> !NamedAgain(axes, i)
    ensures |CartesianProduct(axes)| == Combinations(axes)
  {
    ProductLength(axes);
    if NonEmpty(axes) {
      GeneratorIs(axes);
    } else {
      var i :| 0 <= i < |axes| && axes[i].values == [];
      assert !NamedAgain(axes, i);
      forall m ensures !IsChoice(axes, m) {
        assert !NamedAgain(axes, i);
      }
    }
  }

  /** An attribute in two rows, the earlier one with at least two values: whatever else is picked, the later
      axis overwrites the earlier one and combinations repeat. */
  lemma RepeatedNameRepeats(axes: seq<Axis>, i: nat, j: nat)
    requires NonEmpty(axes) && i < j < |axes| && axes[i].name == axes[j].name && 2 <= |axes[i].values|
    ensures !NoDuplicates(CartesianProduct(axes))
  {
    GeneratorIs(axes);
    assert NamedAgain(axes, i);
  }

  // ---- From the picked rows to the axes ----

  datatype Value = Value(id: Id, text: string)
  datatype Attribute = Attribute(id: Id, name: string, values: seq<Value>)
  datatype Row = Row(attribute: Option<Id>, values: seq<Id>)

  function FindAttribute(attributes: seq<Attribute>, id: Id): (r: Option<Attribute>)
    ensures r.Some? ==> r.value in attributes && r.value.id == id
    ensures r.None? ==> forall a :: a in attributes ==> a.id != id
  {
    if attributes == [] then None
    else if attributes[0].id == id then Some(attributes[0])
    else FindAttribute(attributes[1..], id)
  }

  function FindValue(values: seq<Value>, id: Id): (r: Option<Value>)
    ensures r.Some? ==> r.value in values && r.value.id == id
    ensures r.None? ==> forall v :: v in values ==> v.id != id
  {
    if values == [] then None else if values[0].id == id then Some(values[0]) else FindValue(values[1..], id)
  }

  /** The texts of the picked values that exist and are not empty. */
  function Picked(values: seq<Value>, ids: seq<Id>): seq<string>
  {
    if ids == [] then []
    else
      var v := FindValue(values, ids[|ids| - 1]);
      Picked(values, ids[..|ids| - 1]) + if v.Some? && v.value.text != "" then [v.value.text] else []
  }

  /** The axis of one row, if it picked an attribute and a value of it. */
  function AxisOf(row: Row, attributes: seq<Attribute>): Option<Axis>
  {
    var found := if row.attribute.Some? then FindAttribute(attributes, row.attribute.value) else None;
    if found.None? || Picked(found.value.values, row.values) == [] then None
    else Some(Axis(found.value.name, Picked(found.value.values, row.values)))
  }

  function ResolveMultiRows(rows: seq<Row>, attributes: seq<Attribute>): seq<Axis>
  {
    if rows == [] then []
    else
      var axis := AxisOf(rows[|rows| - 1], attributes);
      ResolveMultiRows(rows[..|rows| - 1], attributes) + if axis.Some? then [axis.value] else []
  }

  /** What the unique constraints of the catalogue give. */
  predicate CatalogueUnique(attributes: seq<Attribute>)
  {
    && (forall a, b :: a in attributes && b in attributes && (a.id == b.id || a.name == b.name) ==> a == b)
    && (forall a :: a in attributes ==> ValuesUnique(a.values))
  }

  predicate ValuesUnique(values: seq<Value>)
  {
    forall v, w :: v in values && w in values && (v.id == w.id || v.text == w.text) ==> v == w
  }

  /** No attribute is picked in two rows and no value twice in a row. */
  predicate PickedOnce(rows: seq<Row>)
  {
    && (forall i, j :: 0 <= i < j < |rows| && rows[i].attribute.Some? ==> rows[i].attribute != rows[j].attribute)
    && (forall i :: 0 <= i < |rows| ==> NoDuplicates(rows[i].values))
  }

  predicate IsPicked(values: seq<Value>, ids: seq<Id>, t: string)
  {
    t != "" && exists v :: v in values && v.id in ids && v.text == t
  }

  lemma {:induction false} PickedDistinct(values: seq<Value>, ids: seq<Id>)
    requires ValuesUnique(values) && NoDuplicates(ids)
    ensures NoDuplicates(Picked(values, ids))
    ensures forall t :: t in Picked(values, ids) <==> IsPicked(values, ids, t)
  {
    if ids != [] {
      var front, found := ids[..|ids| - 1], FindValue(values, ids[|ids| - 1]);
      PickedDistinct(values, front);
      assert ids == front + [ids[|ids| - 1]];
      assert found.Some? ==> found.value.text !in Picked(values, front);
    }
  }

  /** The axis of an attribute that one of the rows picked, with the values picked there. */
  ghost predicate FromRow(rows: seq<Row>, attributes: seq<Attribute>, x: Axis)
  {
    x.values != [] && exists a, r ::
      a in attributes && r in rows && r.attribute == Some(a.id) && x == Axis(a.name, Picked(a.values, r.values))
  }

  lemma FromRowExtends(front: seq<Row>, row: Row, attributes: seq<Attribute>, x: Axis)
    ensures FromRow(front + [row], attributes, x) <==> FromRow(front, attributes, x) || FromRow([row], attributes, x)
  {
    var rows := front + [row];
    assert forall r :: r in rows <==> r in front || r in [row];
  }

  lemma FromOneRow(row: Row, attributes: seq<Attribute>, x: Axis)
    requires CatalogueUnique(attributes)
    ensures FromRow([row], attributes, x) <==> AxisOf(row, attributes) == Some(x)
  {
    assert forall r :: r in [row] <==> r == row;
  }

  /** The resolved axes are exactly those of the rows that picked an attribute and a value of it. */
  lemma {:induction false} ResolvedAxes(rows: seq<Row>, attributes: seq<Attribute>, x: Axis)
    requires CatalogueUnique(attributes)
    ensures x in ResolveMultiRows(rows, attributes) <==> FromRow(rows, attributes, x)
  {
    if rows != [] {
      var front, row := rows[..|rows| - 1], rows[|rows| - 1];
      ResolvedAxes(front, attributes, x);
      FromRowExtends(front, row, attributes, x);
      FromOneRow(row, attributes, x);
      assert rows == front + [row];
    }
  }

  /** Axis k is that of row at[k]; every row that has an axis is listed, once, and in order. */
  ghost predicate ListedAt(rows: seq<Row>, attributes: seq<Attribute>, axes: seq<Axis>, at: seq<nat>)
  {
    && |at| == |axes|
    && (forall k :: 0 <= k < |at| ==> at[k] < |rows| && AxisOf(rows[at[k]], attributes) == Some(axes[k]))
    && (forall k, l :: 0 <= k < l < |at| ==> at[k] < at[l])
    && (forall i :: 0 <= i < |rows| && AxisOf(rows[i], attributes).Some? ==> i in at)
  }

  lemma ListedNext(front: seq<Row>, row: Row, attributes: seq<Attribute>, axes: seq<Axis>, at: seq<nat>)
    requires ListedAt(front, attributes, axes, at)
    ensures var axis := AxisOf(row, attributes);
      if axis.Some? then ListedAt(front + [row], attributes, axes + [axis.value], at + [|front|])
      else ListedAt(front + [row], attributes, axes, at)
  {
    var rows, axis := front + [row], AxisOf(row, attributes);
    var more := if axis.Some? then at + [|front|] else at;
    forall i | 0 <= i < |rows| && AxisOf(rows[i], attributes).Some? ensures i in more {
      if i == |front| {
        assert more[|at|] == i;
      } else {
        assert rows[i] == front[i] && i in at;
      }
    }
    forall k | 0 <= k < |at| ensures rows[at[k]] == front[at[k]] {
    }
  }

  /** The axes keep the order of the rows they come from, and no row's axis is lost or listed twice. */
  lemma {:induction false} ResolvedInOrder(rows: seq<Row>, attributes: seq<Attribute>) returns (at: seq<nat>)
    ensures ListedAt(rows, attributes, ResolveMultiRows(rows, attributes), at)
  {
    if rows == [] {
      at := [];
    } else {
      var front, row := rows[..|rows| - 1], rows[|rows| - 1];
      var before := ResolvedInOrder(front, attributes);
      at := NextListed(front, row, attributes, before);
      assert rows == front + [row];
    }
  }

  lemma NextListed(front: seq<Row>, row: Row, attributes: seq<Attribute>, before: seq<nat>) returns (at: seq<nat>)
    requires ListedAt(front, attributes, ResolveMultiRows(front, attributes), before)
    ensures ListedAt(front + [row], attributes, ResolveMultiRows(front + [row], attributes), at)
  {
    var axes, axis := ResolveMultiRows(front, attributes), AxisOf(row, attributes);
    ListedNext(front, row, attributes, axes, before);
    assert (front + [row])[..|front|] == front;
    assert axes + [] == axes;
    assert ResolveMultiRows(front + [row], attributes) == axes + if axis.Some? then [axis.value] else [];
    at := if axis.Some? then before + [|front|] else before;
  }

  /** Toggling never picks a value twice, so no axis is empty or repeats a value. */
  lemma AxesWellFormed(rows: seq<Row>, attributes: seq<Attribute>)
    requires CatalogueUnique(attributes) && forall i :: 0 <= i < |rows| ==> NoDuplicates(rows[i].values)
    ensures var axes := ResolveMultiRows(rows, attributes);
      NonEmpty(axes) && forall i :: 0 <= i < |axes| ==> NoDuplicates(axes[i].values)
  {
    var axes := ResolveMultiRows(rows, attributes);
    var at := ResolvedInOrder(rows, attributes);
    forall k | 0 <= k < |axes| ensures axes[k].values != [] && NoDuplicates(axes[k].values) {
      var row := rows[at[k]];
      PickedDistinct(FindAttribute(attributes, row.attribute.value).value.values, row.values);
    }
  }

  lemma {:induction false} RowsGiveDistinctAxes(rows: seq<Row>, attributes: seq<Attribute>)
    requires CatalogueUnique(attributes) && PickedOnce(rows)
    ensures DistinctAxes(ResolveMultiRows(rows, attributes))
  {
    if rows != [] {
      var front, row := rows[..|rows| - 1], rows[|rows| - 1];
      RowsGiveDistinctAxes(front, attributes);
      var axes := ResolveMultiRows(front, attributes);
      if AxisOf(row, attributes).Some? {
        var found := FindAttribute(attributes, row.attribute.value);
        PickedDistinct(found.value.values, row.values);
        forall i | 0 <= i < |axes| ensures axes[i].name != found.value.name {
          assert axes[i] in axes;
          ResolvedAxes(front, attributes, axes[i]);
        }
      }
    }
  }
}
