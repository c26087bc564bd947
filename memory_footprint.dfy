/**
 * The memory footprint of a traced execution: a time-ordered list of
 * (value, timestamp) observations, together with the calls and imports seen,
 * a step counter and the executed notebook (pybryt/execution/memory_footprint.py).
 */
module MemoryFootprints {
  import opened Wrappers

  /** A captured Python object; this module only stores and forwards it. */
  type Value(==)

  /** The digest `pickle_and_hash` computes for a value. */
  type Hash(==)

  /** An executed notebook, stored as it is. */
  type Notebook(==)

  /** One observation: the value and the step at which it was seen. */
  type Entry = (Value, int)

  /** The exception `get_value` raises for an index outside the list. */
  datatype IndexError = IndexError

  /** A mutable step counter. */
  class Counter {
    var val: int

    constructor (start: int)
      ensures val == start
    {
      val := start;
    }

    /** `get_value`: the current count, which `increment` and `offset` move. */
    function GetValue(): (v: int)
      reads this
      ensures v == val
    {
      val
    }

    method Increment()
      modifies this
      ensures val == old(val) + 1
    {
      val := val + 1;
    }

    method Offset(v: int)
      modifies this
      ensures val == old(val) + v
    {
      val := val + v;
    }
  }

  /**
   * `num_steps`: the largest timestamp among the observations, or -1 when there
   * are none.
   */
  function NumSteps(vs: seq<Entry>): (n: int)
    ensures vs == [] ==> n == -1
    ensures vs != [] ==> exists i :: 0 <= i < |vs| && vs[i].1 == n
    ensures forall i :: 0 <= i < |vs| ==> vs[i].1 <= n
  {
    if vs == [] then -1
    else if |vs| == 1 then vs[0].1
    else
      var m := NumSteps(vs[..|vs| - 1]);
      if m < vs[|vs| - 1].1 then vs[|vs| - 1].1 else m
  }

  class MemoryFootprint {
    var counter: Counter
    var values: seq<Entry>
    var calls: seq<(string, string)>
    var imports: set<string>
    var executedNotebook: Option<Notebook>

    /** A footprint with no observations; it shares `counter` when one is given. */
    constructor (counter: Counter?)
      ensures counter != null ==> this.counter == counter
      ensures counter == null ==> fresh(this.counter) && this.counter.val == 0
      ensures values == [] && calls == [] && imports == {} && executedNotebook == None
    {
      if counter != null {
        this.counter := counter;
      } else {
        this.counter := new Counter(0);
      }
      values := [];
      calls := [];
      imports := {};
      executedNotebook := None;
    }

    /** `from_values`: a fresh footprint holding `vs`, its counter at `num_steps`. */
    static method FromValues(vs: seq<Entry>) returns (fp: MemoryFootprint)
      ensures fresh(fp) && fresh(fp.counter)
      ensures fp.values == vs
      ensures fp.counter.val == NumSteps(vs)
      ensures fp.calls == [] && fp.imports == {} && fp.executedNotebook == None
    {
      fp := new MemoryFootprint(null);
      fp.values := fp.values + vs;
      fp.OffsetCounter(NumSteps(fp.values));
    }

    method IncrementCounter()
      modifies counter
      ensures counter.val == old(counter.val) + 1
    {
      counter.Increment();
    }

    method OffsetCounter(v: int)
      modifies counter
      ensures counter.val == old(counter.val) + v
    {
      counter.Offset(v);
    }

    /**
     * `add_value`: appends one observation; without a timestamp the counter's
     * current value is used.
     */
    method AddValue(val: Value, timestamp: Option<int>)
      modifies this
      ensures counter == old(counter) && calls == old(calls)
      ensures imports == old(imports) && executedNotebook == old(executedNotebook)
      ensures values == old(values) + [(val, if timestamp.Some? then timestamp.value else counter.val)]
      ensures GetValue(-1) == Ok(values[|values| - 1])
    {
      var ts := if timestamp.Some? then timestamp.value else counter.GetValue();
      values := values + [(val, ts)];
    }

    /** `get_value`: list indexing with Python's negative indices. */
    function GetValue(index: int): (r: Result<Entry, IndexError>)
      reads this
      ensures r.Ok? <==> -|values| <= index < |values|
      ensures r.Ok? ==> r.value in values
      ensures 0 <= index < |values| ==> r == Ok(values[index])
      ensures -|values| <= index < 0 ==> r == Ok(values[|values| + index])
    {
      if 0 <= index < |values| then Ok(values[index])
      else if -|values| <= index < 0 then Ok(values[|values| + index])
      else Err(IndexError)
    }

    /** `add_call`: records one call by file name and function name. */
    method AddCall(filename: string, fnName: string)
      modifies this
      ensures calls == old(calls) + [(filename, fnName)]
      ensures counter == old(counter) && values == old(values)
      ensures imports == old(imports) && executedNotebook == old(executedNotebook)
    {
      calls := calls + [(filename, fnName)];
    }

    /** `add_imports`: adds every given module name to the set of imports. */
    method AddImports(modules: seq<string>)
      modifies this
      ensures imports == old(imports) + set m | m in modules
      ensures counter == old(counter) && values == old(values)
      ensures calls == old(calls) && executedNotebook == old(executedNotebook)
    {
      imports := imports + set m | m in modules;
    }

    method SetExecutedNotebook(nb: Notebook)
      modifies this
      ensures executedNotebook == Some(nb)
      ensures counter == old(counter) && values == old(values)
      ensures calls == old(calls) && imports == old(imports)
    {
      executedNotebook := Some(nb);
    }

    /**
     * `__eq__`: compares observations, calls, imports and notebook but not
     * the counter: footprints that differ only in their counters compare
     * equal, and footprints that compare equal still agree on `num_steps`.
     */
    function Equals(other: MemoryFootprint): (b: bool)
      reads this, other
      ensures other == this ==> b
      ensures (values == other.values && calls == other.calls && imports == other.imports
               && executedNotebook == other.executedNotebook) ==> b
      ensures b ==> NumSteps(values) == NumSteps(other.values)
      ensures b ==> forall i :: -|values| <= i < |values| ==> GetValue(i) == other.GetValue(i)
    {
      values == other.values && calls == other.calls
      && imports == other.imports && executedNotebook == other.executedNotebook
    }

    /**
     * The inner loop of `combine`: adds every observation of `l`, its
     * timestamp moved up by `offset`, whose value's hash is not in `seen`.
     */
    method MergeShifted(l: seq<Entry>, offset: int, seen: set<Hash>, ghost done: seq<Entry>, hash: Value -> Hash)
      returns (seen': set<Hash>)
      requires values == KeepFirst(done, hash) && seen == HashesOf(done, hash)
      modifies this
      ensures values == KeepFirst(done + Shift(l, offset), hash)
      ensures seen' == HashesOf(done + Shift(l, offset), hash)
      ensures counter == old(counter) && calls == old(calls) && imports == old(imports)
      ensures executedNotebook == old(executedNotebook)
    {
      seen' := seen;
      ghost var acc := done;
      var j := 0;
      while j < |l|
        invariant 0 <= j <= |l|
        invariant acc == done + Shift(l[..j], offset)
        invariant values == KeepFirst(acc, hash) && seen' == HashesOf(acc, hash)
        invariant counter == old(counter) && calls == old(calls) && imports == old(imports)
        invariant executedNotebook == old(executedNotebook)
      {
        var (obj, ts) := l[j];
        ShiftSnoc(l, j, offset);
        seen' := MergeOne(obj, ts + offset, seen', acc, hash);
        acc := acc + [(obj, ts + offset)];
        j := j + 1;
      }
      assert l[..j] == l;
    }

    /** One pass of that loop: the observation is added only when its hash is new. */
    method MergeOne(obj: Value, ts: int, seen: set<Hash>, ghost done: seq<Entry>, hash: Value -> Hash)
      returns (seen': set<Hash>)
      requires values == KeepFirst(done, hash) && seen == HashesOf(done, hash)
      modifies this
      ensures values == KeepFirst(done + [(obj, ts)], hash)
      ensures seen' == HashesOf(done + [(obj, ts)], hash)
      ensures counter == old(counter) && calls == old(calls) && imports == old(imports)
      ensures executedNotebook == old(executedNotebook)
    {
      HashesOfSnoc(done, (obj, ts), hash);
      KeepFirstSnoc(done, (obj, ts), hash);
      seen' := seen;
      if hash(obj) !in seen {
        AddValue(obj, Some(ts));
        seen' := seen + {hash(obj)};
      }
    }

    /**
     * `combine`: merges footprints in order. A value is kept only the first
     * time its hash is seen, with its timestamp moved up by the `num_steps` of
     * every earlier footprint; the counter ends at the sum of all `num_steps`.
     * The calls are never copied: pybryt's `map` over the footprints' calls is
     * built but never consumed.
     */
    static method Combine(fps: seq<MemoryFootprint>, hash: Value -> Hash) returns (newFp: MemoryFootprint)
      ensures fresh(newFp) && fresh(newFp.counter)
      ensures newFp.values == CombinedValues(ValueLists(fps), hash)
      ensures newFp.counter.val == SumSteps(ValueLists(fps))
      ensures newFp.calls == [] && newFp.imports == {} && newFp.executedNotebook == None
    {
      newFp := MergeAll(ValueLists(fps), hash);
    }

    /** The loop of `combine`, over the observation lists of the footprints in order. */
    static method MergeAll(lists: seq<seq<Entry>>, hash: Value -> Hash) returns (newFp: MemoryFootprint)
      ensures fresh(newFp) && fresh(newFp.counter)
      ensures newFp.values == CombinedValues(lists, hash)
      ensures newFp.counter.val == SumSteps(lists)
      ensures newFp.calls == [] && newFp.imports == {} && newFp.executedNotebook == None
    {
      newFp := new MemoryFootprint(null);
      var seen: set<Hash> := {};
      var offset := 0;
      var i := 0;
      while i < |lists|
        invariant 0 <= i <= |lists|
        invariant fresh(newFp) && fresh(newFp.counter)
        invariant newFp.values == KeepFirst(Shifted(lists[..i]), hash)
        invariant seen == HashesOf(Shifted(lists[..i]), hash)
        invariant offset == SumSteps(lists[..i])
        invariant newFp.counter.val == 0
        invariant newFp.calls == [] && newFp.imports == {} && newFp.executedNotebook == None
      {
        seen := newFp.MergeShifted(lists[i], offset, seen, Shifted(lists[..i]), hash);
        PrefixSnoc(lists, i);
        offset := offset + NumSteps(lists[i]);
        i := i + 1;
      }
      assert lists[..i] == lists;
      newFp.OffsetCounter(offset);
    }
  }

  /** The observation lists of the given footprints, in order. */
  function ValueLists(fps: seq<MemoryFootprint>): (lists: seq<seq<Entry>>)
    reads set i | 0 <= i < |fps| :: fps[i]
    ensures |lists| == |fps|
    ensures forall i :: 0 <= i < |fps| ==> lists[i] == fps[i].values
  {
    seq(|fps|, i reads set i | 0 <= i < |fps| :: fps[i] requires 0 <= i < |fps| => fps[i].values)
  }

  /** The sum of the `num_steps` of the given observation lists. */
  function SumSteps(lists: seq<seq<Entry>>): int
  {
    if lists == [] then 0 else SumSteps(lists[..|lists| - 1]) + NumSteps(lists[|lists| - 1])
  }

  /** The total number of observations in the given lists. */
  function TotalLength(lists: seq<seq<Entry>>): nat
  {
    if lists == [] then 0 else TotalLength(lists[..|lists| - 1]) + |lists[|lists| - 1]|
  }

  /** The observations of `l` with every timestamp moved up by `off`. */
  function Shift(l: seq<Entry>, off: int): (r: seq<Entry>)
    ensures |r| == |l|
    ensures forall k :: 0 <= k < |l| ==> r[k] == (l[k].0, l[k].1 + off)
  {
    seq(|l|, k requires 0 <= k < |l| => (l[k].0, l[k].1 + off))
  }

  /**
   * All observations of the lists one after another, each list's timestamps
   * moved up by the `num_steps` of the lists before it.
   */
  function Shifted(lists: seq<seq<Entry>>): seq<Entry>
  {
    if lists == [] then []
    else
      var prefix := lists[..|lists| - 1];
      Shifted(prefix) + Shift(lists[|lists| - 1], SumSteps(prefix))
  }

  /** The hashes of all values in `s`. */
  function HashesOf(s: seq<Entry>, hash: Value -> Hash): set<Hash>
  {
    set i | 0 <= i < |s| :: hash(s[i].0)
  }

  /** `s` without every observation whose value's hash occurred earlier in `s`. */
  function KeepFirst(s: seq<Entry>, hash: Value -> Hash): seq<Entry>
  {
    if s == [] then []
    else
      var prefix := s[..|s| - 1];
      if hash(s[|s| - 1].0) in HashesOf(prefix, hash) then KeepFirst(prefix, hash)
      else KeepFirst(prefix, hash) + [s[|s| - 1]]
  }

  /** The observations `combine` produces from the given observation lists. */
  function CombinedValues(lists: seq<seq<Entry>>, hash: Value -> Hash): seq<Entry>
  {
    KeepFirst(Shifted(lists), hash)
  }

  /** Position `k` of `s` holds the first value of `s` with its hash. */
  ghost predicate FirstOccurrence(s: seq<Entry>, k: int, hash: Value -> Hash)
  {
    0 <= k < |s| && forall j :: 0 <= j < k ==> hash(s[j].0) != hash(s[k].0)
  }

  /** The positions of `s` that `KeepFirst` keeps, in increasing order. */
  ghost function KeptIndices(s: seq<Entry>, hash: Value -> Hash): seq<int>
  {
    if s == [] then []
    else
      var prefix := s[..|s| - 1];
      if hash(s[|s| - 1].0) in HashesOf(prefix, hash) then KeptIndices(prefix, hash)
      else KeptIndices(prefix, hash) + [|s| - 1]
  }

  lemma {:induction false} ShiftSnoc(l: seq<Entry>, j: int, off: int)
    requires 0 <= j < |l|
    ensures Shift(l[..j + 1], off) == Shift(l[..j], off) + [(l[j].0, l[j].1 + off)]
  {
  }

  lemma {:induction false} PrefixSnoc(lists: seq<seq<Entry>>, i: int)
    requires 0 <= i < |lists|
    ensures Shifted(lists[..i + 1]) == Shifted(lists[..i]) + Shift(lists[i], SumSteps(lists[..i]))
    ensures SumSteps(lists[..i + 1]) == SumSteps(lists[..i]) + NumSteps(lists[i])
  {
    assert lists[..i + 1][..i] == lists[..i];
  }

  lemma {:induction false} KeepFirstSnoc(s: seq<Entry>, e: Entry, hash: Value -> Hash)
    ensures KeepFirst(s + [e], hash)
            == if hash(e.0) in HashesOf(s, hash) then KeepFirst(s, hash) else KeepFirst(s, hash) + [e]
  {
    assert (s + [e])[..|s|] == s;
  }

  lemma {:induction false} HashesOfSnoc(s: seq<Entry>, e: Entry, hash: Value -> Hash)
    ensures HashesOf(s + [e], hash) == HashesOf(s, hash) + {hash(e.0)}
  {
    var t := s + [e];
    assert forall i :: 0 <= i < |s| ==> t[i] == s[i];
    assert t[|s|] == e;
  }

  lemma {:induction false} KeptIndicesCorrect(s: seq<Entry>, hash: Value -> Hash)
    ensures |KeptIndices(s, hash)| == |KeepFirst(s, hash)|
    ensures forall m :: 0 <= m < |KeptIndices(s, hash)| ==>
              0 <= KeptIndices(s, hash)[m] < |s| && KeepFirst(s, hash)[m] == s[KeptIndices(s, hash)[m]]
    ensures forall m, n :: 0 <= m < n < |KeptIndices(s, hash)| ==>
              KeptIndices(s, hash)[m] < KeptIndices(s, hash)[n]
    ensures forall k :: 0 <= k < |s| ==> (k in KeptIndices(s, hash) <==> FirstOccurrence(s, k, hash))
  {
    if s != [] {
      var prefix := s[..|s| - 1];
      var last := |s| - 1;
      KeptIndicesCorrect(prefix, hash);
      forall k | 0 <= k < last
        ensures FirstOccurrence(s, k, hash) <==> FirstOccurrence(prefix, k, hash)
      {
        assert forall j :: 0 <= j <= k ==> s[j] == prefix[j];
      }
      assert FirstOccurrence(s, last, hash) <==> hash(s[last].0) !in HashesOf(prefix, hash) by {
        if hash(s[last].0) in HashesOf(prefix, hash) {
          var j :| 0 <= j < |prefix| && hash(prefix[j].0) == hash(s[last].0);
          assert s[j] == prefix[j];
        }
      }
    }
  }

  /** Every value `KeepFirst` keeps comes from `s`. */
  lemma {:induction false} KeepFirstSubset(s: seq<Entry>, hash: Value -> Hash)
    ensures forall e :: e in KeepFirst(s, hash) ==> e in s
  {
    if s != [] {
      var prefix := s[..|s| - 1];
      KeepFirstSubset(prefix, hash);
      assert forall e :: e in prefix ==> e in s;
    }
  }

  /** No two observations of `r` hold values with the same hash. */
  ghost predicate DistinctHashes(r: seq<Entry>, hash: Value -> Hash)
  {
    forall i, j :: 0 <= i < j < |r| ==> hash(r[i].0) != hash(r[j].0)
  }

  /** `combine` never keeps two values with the same hash. */
  lemma {:induction false} KeepFirstNoDuplicateHashes(s: seq<Entry>, hash: Value -> Hash)
    ensures DistinctHashes(KeepFirst(s, hash), hash)
  {
    if s != [] {
      var prefix := s[..|s| - 1];
      KeepFirstNoDuplicateHashes(prefix, hash);
      KeepFirstSubset(prefix, hash);
      var e := s[|s| - 1];
      if hash(e.0) !in HashesOf(prefix, hash) {
        var p := KeepFirst(prefix, hash);
        var r := p + [e];
        assert KeepFirst(s, hash) == r;
        forall i | 0 <= i < |p|
          ensures r[i] == p[i] && hash(r[i].0) != hash(e.0)
        {
          assert p[i] in prefix;
          var k :| 0 <= k < |prefix| && prefix[k] == p[i];
          assert hash(prefix[k].0) in HashesOf(prefix, hash);
        }
        forall i, j | 0 <= i < j < |r|
          ensures hash(r[i].0) != hash(r[j].0)
        {
          if j < |p| {
            assert r[i] == p[i] && r[j] == p[j];
          }
        }
      }
    }
  }

  /**
   * `combine`'s deduplication keeps exactly the first occurrence of each hash
   * and keeps those in their original order: its result is the subsequence of
   * `s` at the positions holding a value whose hash did not occur before.
   */
  lemma {:induction false} KeepFirstIsFirstOccurrences(s: seq<Entry>, hash: Value -> Hash)
    ensures var r := KeepFirst(s, hash);
            exists idx: seq<int> ::
              && |idx| == |r|
              && (forall m :: 0 <= m < |idx| ==> 0 <= idx[m] < |s| && r[m] == s[idx[m]])
              && (forall m, n :: 0 <= m < n < |idx| ==> idx[m] < idx[n])
              && (forall k :: 0 <= k < |s| ==> (k in idx <==> FirstOccurrence(s, k, hash)))
  {
    KeptIndicesCorrect(s, hash);
    var idx := KeptIndices(s, hash);
  }

  lemma {:induction false} ShiftedLength(lists: seq<seq<Entry>>)
    ensures |Shifted(lists)| == TotalLength(lists)
  {
    if lists != [] {
      ShiftedLength(lists[..|lists| - 1]);
    }
  }

  /**
   * `combine` moves observation `j` of footprint `i` to position
   * `TotalLength(lists[..i]) + j` and adds the `num_steps` of all earlier
   * footprints to its timestamp.
   */
  lemma {:induction false} ShiftedAt(lists: seq<seq<Entry>>, i: int, j: int)
    requires 0 <= i < |lists| && 0 <= j < |lists[i]|
    ensures TotalLength(lists[..i]) + j < |Shifted(lists)|
    ensures Shifted(lists)[TotalLength(lists[..i]) + j] == (lists[i][j].0, lists[i][j].1 + SumSteps(lists[..i]))
  {
    var prefix := lists[..|lists| - 1];
    var last := lists[|lists| - 1];
    var front := Shifted(prefix);
    assert Shifted(lists) == front + Shift(last, SumSteps(prefix));
    ShiftedLength(prefix);
    if i == |lists| - 1 {
      assert prefix == lists[..i];
      assert last == lists[i];
      var k := TotalLength(prefix) + j;
      assert k - |front| == j;
      assert Shifted(lists)[k] == Shift(last, SumSteps(prefix))[j];
    } else {
      ShiftedAt(prefix, i, j);
      assert prefix[..i] == lists[..i];
      assert prefix[i] == lists[i];
      var k := TotalLength(lists[..i]) + j;
      assert k < |front|;
      assert Shifted(lists)[k] == front[k];
    }
  }

  /** An empty footprint has `num_steps` -1, so merging it first moves every later timestamp down by one. */
  lemma {:induction false} CombineAfterEmpty(l: seq<Entry>, hash: Value -> Hash)
    ensures Shifted([[], l]) == Shift(l, -1)
    ensures CombinedValues([[], l], hash) == KeepFirst(Shift(l, -1), hash)
  {
    var empty: seq<Entry> := [];
    var none: seq<seq<Entry>> := [];
    assert [empty, l][..1] == [empty];
    assert [empty][..0] == none;
    assert SumSteps([empty]) == -1;
    assert Shifted([empty]) == [];
  }
}
