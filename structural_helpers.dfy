/**
 * The attribute containers the structural pattern tests match against
 * (tests/annotations/structural_helpers.py): an object whose attributes live
 * in one dictionary, `attrs`, which `__setattr__`, `__getattr__` and
 * `__dir__` all go through; and a container of elements built on it.
 */
module StructuralHelpers {
  import opened Wrappers

  /** A value that is neither a list nor a dictionary. */
  type Atom(==)

  /** The values stored as attributes. */
  datatype Item = Scalar(atom: Atom) | ListOf(items: seq<Item>) | DictOf(entries: map<string, Item>)

  /** The exceptions the containers raise. */
  datatype ContainerError =
    | AttributeError   // `__getattr__` of a name not in `attrs`
    | NotAList         // `elements` holds something other than a list

  /**
   * Python's `<=` on `str`: code point by code point, a proper prefix
   * ordering first.
   */
  predicate StrLe(a: string, b: string)
  {
    a == [] || (b != [] && (a[0] < b[0] || (a[0] == b[0] && StrLe(a[1..], b[1..]))))
  }

  lemma {:induction false} StrLeTotal(a: string, b: string)
    ensures StrLe(a, b) || StrLe(b, a)
  {
    if a != [] && b != [] && a[0] == b[0] {
      StrLeTotal(a[1..], b[1..]);
    }
  }

  lemma {:induction false} StrLeTrans(a: string, b: string, c: string)
    requires StrLe(a, b) && StrLe(b, c)
    ensures StrLe(a, c)
  {
    if a != [] && b != [] && c != [] && a[0] == b[0] && b[0] == c[0] {
      StrLeTrans(a[1..], b[1..], c[1..]);
    }
  }

  lemma {:induction false} StrLeAntisymmetric(a: string, b: string)
    requires StrLe(a, b) && StrLe(b, a)
    ensures a == b
  {
    if a != [] && b != [] {
      StrLeAntisymmetric(a[1..], b[1..]);
      assert a == [a[0]] + a[1..];
      assert b == [b[0]] + b[1..];
    }
  }

  lemma {:induction false} StrLeReflexive(a: string)
    ensures StrLe(a, a)
  {
    if a != [] {
      StrLeReflexive(a[1..]);
    }
  }

  predicate Sorted(s: seq<string>)
  {
    forall i, j :: 0 <= i < j < |s| ==> StrLe(s[i], s[j])
  }

  /** A name no greater than the first of a sorted sequence can go in front of it. */
  lemma {:induction false} SortedCons(y: string, t: seq<string>)
    requires Sorted(t) && (t != [] ==> StrLe(y, t[0]))
    ensures Sorted([y] + t)
  {
    var u := [y] + t;
    forall i, j | 0 <= i < j < |u|
      ensures StrLe(u[i], u[j])
    {
      if i == 0 && j > 1 {
        StrLeTrans(y, t[0], t[j - 1]);
      }
    }
  }

  /** `x` inserted into the sorted `s` before the first element it does not follow. */
  function Insert(s: seq<string>, x: string): (r: seq<string>)
    requires Sorted(s)
    ensures Sorted(r)
    ensures multiset(r) == multiset(s) + multiset{x}
    ensures r != [] && (r[0] == x || (s != [] && r[0] == s[0]))
  {
    if s == [] then [x]
    else if StrLe(x, s[0]) then
      SortedCons(x, s);
      [x] + s
    else
      StrLeTotal(x, s[0]);
      var rest := Insert(s[1..], x);
      assert s == [s[0]] + s[1..];
      assert |s| > 1 ==> StrLe(s[0], s[1]);
      SortedCons(s[0], rest);
      [s[0]] + rest
  }

  /** The first name of a sorted sequence is no greater than any name in it. */
  lemma {:induction false} SortedHeadLeast(s: seq<string>, x: string)
    requires Sorted(s) && x in multiset(s)
    ensures StrLe(s[0], x)
  {
    var i :| 0 <= i < |s| && s[i] == x;
    if i == 0 {
      StrLeReflexive(x);
    }
  }

  lemma {:induction false} SortedTail(s: seq<string>)
    requires Sorted(s) && s != []
    ensures Sorted(s[1..])
  {
    forall i, j | 0 <= i < j < |s| - 1
      ensures StrLe(s[1..][i], s[1..][j])
    {
      assert s[1..][i] == s[i + 1] && s[1..][j] == s[j + 1];
    }
  }

  /** Two sorted sequences holding the same names are the same sequence. */
  lemma {:induction false} SortedUnique(s: seq<string>, t: seq<string>)
    requires Sorted(s) && Sorted(t) && multiset(s) == multiset(t)
    ensures s == t
  {
    assert |multiset(s)| == |s| && |multiset(t)| == |t|;
    if s != [] {
      assert s == [s[0]] + s[1..];
      assert t == [t[0]] + t[1..];
      SortedHeadLeast(s, t[0]);
      SortedHeadLeast(t, s[0]);
      StrLeAntisymmetric(s[0], t[0]);
      assert multiset(s[1..]) == multiset(t[1..]) by {
        assert multiset(s) == multiset{s[0]} + multiset(s[1..]);
        assert multiset(t) == multiset{t[0]} + multiset(t[1..]);
        assert multiset(s[1..]) == multiset(s) - multiset{s[0]};
        assert multiset(t[1..]) == multiset(t) - multiset{t[0]};
      }
      SortedTail(s);
      SortedTail(t);
      SortedUnique(s[1..], t[1..]);
    }
  }

  /** `AttrContainer`: every attribute but `attrs` itself is an entry of `attrs`. */
  class AttrContainer {
    var attrs: map<string, Item>

    /** `AttrContainer(**kwargs)`: `attrs` is a copy of the keyword arguments. */
    constructor (kwargs: map<string, Item>)
      ensures attrs == kwargs
    {
      attrs := kwargs;
    }

    /**
     * `Container(*elements)`: the base constructor with no keyword arguments,
     * then `self.elements = list(elements)`, which `__setattr__` stores in `attrs`.
     */
    constructor Container(elements: seq<Item>)
      ensures attrs == map["elements" := ListOf(elements)]
      ensures forall x :: Contains(x) == Ok(x in elements)
    {
      attrs := map[];
      new;
      SetAttr("elements", ListOf(elements));
    }

    /**
     * `__setattr__`: assigning `attrs` replaces the whole dictionary; any
     * other name becomes or overwrites that one entry, and the rest stay.
     */
    method SetAttr(name: string, value: Item)
      requires name == "attrs" ==> value.DictOf?
      modifies this
      ensures name == "attrs" ==> attrs == value.entries
      ensures name != "attrs" ==> attrs == old(attrs)[name := value]
      ensures GetAttr(name) == Ok(value)
      ensures name != "attrs" ==> forall other :: other != name && other != "attrs" ==> GetAttr(other) == old(GetAttr(other))
    {
      if name == "attrs" {
        attrs := value.entries;
      } else {
        attrs := attrs[name := value];
      }
    }

    /**
     * `getattr(c, name)`: `attrs` is found by normal lookup in the instance
     * dictionary, as the dictionary itself; every other name falls through to
     * `__getattr__`, which gives the stored value or an AttributeError.
     */
    function GetAttr(name: string): (r: Result<Item, ContainerError>)
      reads this
      ensures name == "attrs" ==> r == Ok(DictOf(attrs))
      ensures name != "attrs" ==> (r.Ok? <==> name in attrs)
      ensures name != "attrs" && r.Ok? ==> r.value == attrs[name]
      ensures r.Err? ==> r.error == AttributeError
    {
      if name == "attrs" then Ok(DictOf(attrs))
      else if name !in attrs then Err(AttributeError)
      else Ok(attrs[name])
    }

    /**
     * `__dir__`: every key of `attrs` and `"attrs"`, in ascending code-point
     * order. Being sorted and holding exactly those names decides the result.
     */
    method Dir() returns (names: seq<string>)
      ensures Sorted(names)
      ensures multiset(names) == multiset(attrs.Keys) + multiset{"attrs"}
      ensures forall i :: 0 <= i < |names| ==> GetAttr(names[i]).Ok?
    {
      names := ["attrs"];
      var remaining := attrs.Keys;
      while remaining != {}
        invariant remaining <= attrs.Keys
        invariant Sorted(names)
        invariant multiset(names) + multiset(remaining) == multiset(attrs.Keys) + multiset{"attrs"}
        decreases remaining
      {
        var k :| k in remaining;
        names := Insert(names, k);
        assert multiset(remaining) == multiset(remaining - {k}) + multiset{k};
        remaining := remaining - {k};
      }
      forall i | 0 <= i < |names|
        ensures GetAttr(names[i]).Ok?
      {
        assert names[i] in multiset(attrs.Keys) + multiset{"attrs"} by {
          assert names[i] in multiset(names);
        }
        assert names[i] == "attrs" || names[i] in attrs;
      }
    }

    /**
     * `Container.__contains__`: membership in the `elements` list, read
     * through `__getattr__`.
     */
    function Contains(element: Item): (r: Result<bool, ContainerError>)
      reads this
      ensures r.Ok? <==> "elements" in attrs && attrs["elements"].ListOf?
      ensures r.Ok? ==> (r.value <==> element in attrs["elements"].items)
      ensures "elements" !in attrs ==> r == Err(AttributeError)
    {
      var elements := GetAttr("elements");
      if elements.Err? then Err(elements.error)
      else if !elements.value.ListOf? then Err(NotAList)
      else Ok(element in elements.value.items)
    }
  }
}
