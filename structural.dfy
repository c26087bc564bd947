/**
 * Structural patterns (pybryt/annotations/structural.py): a pattern is built
 * by attribute access on the root pattern, which extends a dotted path, and by
 * calling, which attaches positional and keyword attributes; it matches an
 * object whose class is the one named by the path and whose attributes match.
 */
module Structural {
  import opened Wrappers

  /** A value given as a pattern attribute, matched through `Value.check_against` or `==`. */
  type Val(==)

  /**
   * An object a pattern is compared with: the `__name__` of its class, the
   * attributes `getattr` finds on it, and the names `dir` lists for it.
   */
  datatype Obj = Obj(className: string, fields: map<string, Obj>, listing: seq<string>)

  /** A keyword attribute of a pattern: another pattern, or any other value. */
  datatype Attr = Nested(pattern: Pattern) | Plain(value: Val)

  /**
   * `_StructuralPattern`: the package path above the named module or class,
   * its name (`None` for the root), and the positional and keyword attributes
   * the described object must have. Keyword attributes keep their order.
   */
  datatype Pattern = Pattern(parents: seq<string>, curr: Option<string>, unnamed: seq<Val>, named: seq<(string, Attr)>)

  /** The exceptions raised while building or matching a pattern. */
  datatype PatternError =
    | ReservedName(name: string)      // AttributeError for the names `dill` probes
    | MissingAttribute(name: string)  // AttributeError from `getattr(obj, name)`
    | MultipleValues(name: string)    // TypeError: a keyword argument also passed by the call itself

  /**
   * The operations the pattern delegates to code outside this model:
   * `Value(v).check_against(x)`, `x == v` for a positional attribute, and
   * `isinstance(x, getattr(import_module(mod), cls))`.
   */
  datatype Env = Env(checkAgainst: (Val, Obj) -> bool, equals: (Obj, Val) -> bool,
                     isInstance: (Obj, string, Option<string>) -> bool)

  /** Keyword arguments never repeat a name. */
  predicate DistinctKeys(named: seq<(string, Attr)>)
  {
    forall i, j :: 0 <= i < j < |named| ==> named[i].0 != named[j].0
  }

  /** The `structural` singleton: `_StructuralPattern()` with every argument defaulted. */
  function Root(): (p: Pattern)
    ensures p.parents == [] && p.curr == None && p.unnamed == [] && p.named == []
  {
    Pattern([], None, [], [])
  }

  /** The three names `__getattr__` refuses, so that `dill` does not mistake a pattern for a pickler hook. */
  predicate Reserved(attr: string)
  {
    attr == "__getstate__" || attr == "__slots__" || attr == "__setstate__"
  }

  /**
   * `p.attr`: a pattern one level down, named `attr`, with no attributes. The
   * current name moves into the path unless it is `None` or empty (Python
   * falsiness); `p` itself is left as it was.
   */
  function GetAttr(p: Pattern, attr: string): (r: Result<Pattern, PatternError>)
    ensures r.Err? <==> Reserved(attr)
    ensures r.Err? ==> r.error == ReservedName(attr)
    ensures r.Ok? ==> r.value.curr == Some(attr) && r.value.unnamed == [] && r.value.named == []
    ensures r.Ok? && p.curr.Some? && p.curr.value != "" ==> r.value.parents == p.parents + [p.curr.value]
    ensures r.Ok? && (p.curr.None? || p.curr.value == "") ==> r.value.parents == p.parents
  {
    if Reserved(attr) then Err(ReservedName(attr))
    else
      var parents := if p.curr.Some? && p.curr.value != "" then p.parents + [p.curr.value] else p.parents;
      Ok(Pattern(parents, Some(attr), [], []))
  }

  /** The keyword parameters of `__init__` that `__call__` always passes itself. */
  predicate InitParameter(k: string)
  {
    k == "parents" || k == "curr" || k == "unnamed_attrs"
  }

  /** Some keyword of `named` is `k`. */
  predicate HasKey(named: seq<(string, Attr)>, k: string)
  {
    exists i :: 0 <= i < |named| && named[i].0 == k
  }

  /**
   * The first keyword of `named` that is also a parameter of `__init__`: the
   * one the keyword merge of `type(self)(..., **named_attrs)` trips over.
   */
  function FirstInitParameter(named: seq<(string, Attr)>): (r: Option<string>)
    ensures r.None? <==> forall i :: 0 <= i < |named| ==> !InitParameter(named[i].0)
    ensures r.Some? ==> InitParameter(r.value) && HasKey(named, r.value)
  {
    if named == [] then None
    else if InitParameter(named[0].0) then Some(named[0].0)
    else
      var r := FirstInitParameter(named[1..]);
      assert forall i :: 1 <= i < |named| ==> named[i] == named[1..][i - 1];
      r
  }

  /**
   * `p(*unnamed, **named)`: the same path with the call's arguments as its
   * attributes. A keyword `self` collides with the bound instance of
   * `__call__`, and a keyword `parents`, `curr` or `unnamed_attrs` with the
   * argument `__call__` passes to the constructor under that name: both are
   * a `TypeError`.
   */
  function Call(p: Pattern, unnamed: seq<Val>, named: seq<(string, Attr)>): (r: Result<Pattern, PatternError>)
    requires DistinctKeys(named)
    ensures r.Err? <==> exists i :: 0 <= i < |named| && (named[i].0 == "self" || InitParameter(named[i].0))
    ensures HasKey(named, "self") ==> r == Err(MultipleValues("self"))
    ensures r.Err? ==> r.error.MultipleValues? && HasKey(named, r.error.name)
    ensures r.Ok? ==> r.value.parents == p.parents && r.value.curr == p.curr
    ensures r.Ok? ==> r.value.unnamed == unnamed && r.value.named == named
  {
    if HasKey(named, "self") then Err(MultipleValues("self"))
    else
      match FirstInitParameter(named)
      case Some(k) => Err(MultipleValues(k))
      case None => Ok(Pattern(p.parents, p.curr, unnamed, named))
  }

  /** `structural.Foo(curr=v)` raises instead of building a pattern. */
  lemma {:induction false} CallRefusesCurr(p: Pattern, unnamed: seq<Val>, v: Attr)
    ensures Call(p, unnamed, [("curr", v)]) == Err(MultipleValues("curr"))
  {
  }

  /** A later call replaces every attribute of an earlier one. */
  lemma {:induction false} CallReplacesAttributes(p: Pattern, u1: seq<Val>, n1: seq<(string, Attr)>, u2: seq<Val>, n2: seq<(string, Attr)>)
    requires DistinctKeys(n1) && DistinctKeys(n2)
    ensures Call(p, u1, n1).Ok? ==> Call(Call(p, u1, n1).value, u2, n2) == Call(p, u2, n2)
  {
  }

  /** Attribute access ignores the attributes a call attached. */
  lemma {:induction false} AttributesDoNotAffectPath(p: Pattern, u: seq<Val>, n: seq<(string, Attr)>, attr: string)
    requires DistinctKeys(n)
    ensures Call(p, u, n).Ok? ==> GetAttr(Call(p, u, n).value, attr) == GetAttr(p, attr)
  {
  }

  /** `".".join(parts)`. */
  function Join(parts: seq<string>): string
  {
    if parts == [] then ""
    else if |parts| == 1 then parts[0]
    else Join(parts[..|parts| - 1]) + "." + parts[|parts| - 1]
  }

  /** `_get_mod_cls`: the importable module name and the class name. */
  function GetModCls(p: Pattern): (r: (string, Option<string>))
    ensures r.1 == p.curr
    ensures r.0 == "" <== p.parents == []
    ensures |p.parents| == 1 ==> r.0 == p.parents[0]
  {
    (Join(p.parents), p.curr)
  }

  /** `f"{k}={v}"` pairs joined by `", "`, from position `i` on; empty exactly when no pair is left. */
  function ReprNamed(p: Pattern, i: nat, show: Val -> string): (r: string)
    requires i <= |p.named|
    ensures r == "" <==> i == |p.named|
    decreases p, 0, |p.named| - i
  {
    if i == |p.named| then ""
    else
      var (k, v) := p.named[i];
      assert p.named[i] in p.named;
      var shown := match v
        case Nested(q) => Repr(q, show)
        case Plain(x) => show(x);
      var sep := if i + 1 < |p.named| then ", " else "";
      k + "=" + shown + sep + ReprNamed(p, i + 1, show)
  }

  /**
   * What `__repr__` shows before the parentheses: `pybryt.structural.`, the
   * module path followed by a dot when it is non-empty, and the class name
   * (`None` when there is none).
   */
  function ReprHead(p: Pattern): (r: string)
    ensures |r| >= 18 && r[..18] == "pybryt.structural."
  {
    var (mod, cls) := GetModCls(p);
    var modPart := if mod != "" then mod + "." else mod;
    var clsPart := if cls.Some? then cls.value else "None";
    "pybryt.structural." + modPart + clsPart
  }

  /**
   * `__repr__`: the head, then the keyword attributes in parentheses;
   * positional attributes are not shown. A nested pattern is shown by its own
   * `__repr__`; any other value by `show`, which stands for `str()`.
   */
  function Repr(p: Pattern, show: Val -> string): (r: string)
    ensures |r| >= 20 && r[..18] == "pybryt.structural." && r[|r| - 1] == ')'
    ensures p.named == [] ==> r == ReprHead(p) + "()"
    decreases p, 1
  {
    var head := ReprHead(p);
    var r := head + "(" + ReprNamed(p, 0, show) + ")";
    assert r[..18] == head[..18];
    r
  }

  /** The keyword pairs of two patterns with the same keyword attributes are shown alike. */
  lemma {:induction false} ReprNamedOnlyKeywords(a: Pattern, b: Pattern, i: nat, show: Val -> string)
    requires a.named == b.named && i <= |a.named|
    ensures ReprNamed(a, i, show) == ReprNamed(b, i, show)
    decreases |a.named| - i
  {
    if i < |a.named| {
      ReprNamedOnlyKeywords(a, b, i + 1, show);
    }
  }

  /** Positional attributes never show: calls that differ only in them are shown alike. */
  lemma {:induction false} ReprHidesPositional(p: Pattern, u1: seq<Val>, u2: seq<Val>, n: seq<(string, Attr)>, show: Val -> string)
    requires DistinctKeys(n)
    ensures Call(p, u1, n).Ok? <==> Call(p, u2, n).Ok?
    ensures Call(p, u1, n).Ok? ==> Repr(Call(p, u1, n).value, show) == Repr(Call(p, u2, n).value, show)
  {
    if Call(p, u1, n).Ok? {
      ReprNamedOnlyKeywords(Call(p, u1, n).value, Call(p, u2, n).value, 0, show);
    }
  }

  /** One plain keyword attribute `k` is shown as `(k=v)`, with `v` shown by `str()`. */
  lemma {:induction false} ReprOneKeyword(p: Pattern, k: string, v: Val, show: Val -> string)
    requires p.named == [(k, Plain(v))]
    ensures Repr(p, show) == ReprHead(p) + "(" + k + "=" + show(v) + ")"
  {
  }

  /** Two plain keyword attributes are shown in their order, separated by `", "`. */
  lemma {:induction false} ReprTwoKeywords(p: Pattern, k1: string, v1: Val, k2: string, v2: Val, show: Val -> string)
    requires p.named == [(k1, Plain(v1)), (k2, Plain(v2))]
    ensures Repr(p, show) == ReprHead(p) + "(" + k1 + "=" + show(v1) + ", " + k2 + "=" + show(v2) + ")"
  {
    assert ReprNamed(p, 1, show) == k2 + "=" + show(v2) + "" + "";
    assert ReprNamed(p, 0, show) == k1 + "=" + show(v1) + ", " + ReprNamed(p, 1, show);
  }

  /** The pattern reached from `p` by accessing `names` in turn. */
  function Follow(p: Pattern, names: seq<string>): Result<Pattern, PatternError>
  {
    if names == [] then Ok(p)
    else
      var prefix := Follow(p, names[..|names| - 1]);
      if prefix.Err? then prefix else GetAttr(prefix.value, names[|names| - 1])
  }

  /** A name that attribute access turns into a pattern and then moves into the path. */
  predicate PathName(name: string)
  {
    name != "" && !Reserved(name)
  }

  /** Accessing `a`, `b`, ..., `C` in turn from `structural` builds the path `a.b...` and the name `C`. */
  lemma {:induction false} FollowPath(names: seq<string>)
    requires names != [] && forall i :: 0 <= i < |names| ==> PathName(names[i])
    ensures Follow(Root(), names) == Ok(Pattern(names[..|names| - 1], Some(names[|names| - 1]), [], []))
  {
    var init := names[..|names| - 1];
    if |names| == 1 {
      assert init == [];
      assert Follow(Root(), init) == Ok(Root());
    } else {
      assert forall i :: 0 <= i < |init| ==> init[i] == names[i];
      FollowPath(init);
      assert init[..|init| - 1] + [init[|init| - 1]] == init;
    }
  }

  /** A pattern with a path of non-empty names, a name and no attributes is shown as its dotted full name. */
  lemma {:induction false} ReprOfPath(parents: seq<string>, name: string, show: Val -> string)
    requires forall i :: 0 <= i < |parents| ==> parents[i] != ""
    ensures Repr(Pattern(parents, Some(name), [], []), show) == "pybryt.structural." + Join(parents + [name]) + "()"
  {
    var p := Pattern(parents, Some(name), [], []);
    var mod := Join(parents);
    var modPart := if mod != "" then mod + "." else mod;
    assert ReprNamed(p, 0, show) == "";
    assert Repr(p, show) == "pybryt.structural." + modPart + name + "(" + "" + ")";
    if parents == [] {
      assert parents + [name] == [name];
    } else {
      assert mod != "" by {
        if |parents| == 1 {
          assert mod == parents[0];
        }
      }
      SnocPrefix(parents, name);
    }
    assert Join(parents + [name]) == modPart + name;
    EmptyParens("pybryt.structural." + modPart + name);
    AppendAssoc("pybryt.structural.", modPart, name);
  }

  lemma {:induction false} SnocSplit<T>(s: seq<T>)
    requires s != []
    ensures s[..|s| - 1] + [s[|s| - 1]] == s
  {
  }

  lemma {:induction false} SnocPrefix<T>(s: seq<T>, x: T)
    ensures (s + [x])[..|s|] == s && (s + [x])[|s|] == x
  {
  }

  lemma {:induction false} AppendAssoc(a: string, b: string, c: string)
    ensures a + b + c == a + (b + c)
  {
  }

  lemma {:induction false} EmptyParens(s: string)
    ensures s + "(" + "" + ")" == s + "()"
  {
  }

  /**
   * `structural.a.b.C` is the pattern with path `a.b` and name `C`: its
   * module is `"a.b"`, and it is shown as `pybryt.structural.a.b.C()`.
   */
  lemma {:induction false} FollowFromRoot(names: seq<string>, show: Val -> string)
    requires names != [] && forall i :: 0 <= i < |names| ==> PathName(names[i])
    ensures Follow(Root(), names) == Ok(Pattern(names[..|names| - 1], Some(names[|names| - 1]), [], []))
    ensures GetModCls(Follow(Root(), names).value) == (Join(names[..|names| - 1]), Some(names[|names| - 1]))
    ensures Repr(Follow(Root(), names).value, show) == "pybryt.structural." + Join(names) + "()"
  {
    var init, last := names[..|names| - 1], names[|names| - 1];
    SnocSplit(names);
    FollowPath(names);
    var p := Follow(Root(), names).value;
    assert p == Pattern(init, Some(last), [], []);
    assert forall i :: 0 <= i < |init| ==> init[i] == names[i];
    ReprOfPath(init, last, show);
  }

  /** The module path and class name of `structural.DataFrame`, the example of the class documentation. */
  lemma {:induction false} RootLevelPattern(name: string)
    requires PathName(name)
    ensures GetAttr(Root(), name).Ok?
    ensures GetModCls(GetAttr(Root(), name).value) == ("", Some(name))
  {
  }

  // ---------------------------------------------------------------------------
  // Matching an object
  // ---------------------------------------------------------------------------

  /**
   * `__eq__`: with an empty module path the object's class name must equal
   * `curr` (no import happens); otherwise the object must be an instance of
   * the imported class. Only then are the attributes checked (`and`
   * short-circuits).
   */
  function Eq(p: Pattern, obj: Obj, env: Env): (r: Result<bool, PatternError>)
    ensures r == Ok(true) ==> AttrsMatch(p, obj, env) == Ok(true)
    ensures r.Err? ==> r == AttrsMatch(p, obj, env)
    ensures p.parents == [] && p.curr != Some(obj.className) ==> r == Ok(false)
    decreases p, 2
  {
    var (mod, cls) := GetModCls(p);
    var isInstance := if mod != "" then env.isInstance(obj, mod, cls) else cls == Some(obj.className);
    if !isInstance then Ok(false) else AttrsMatch(p, obj, env)
  }

  /** `_check_object_attrs`: the keyword attributes in order, then the positional ones. */
  function AttrsMatch(p: Pattern, obj: Obj, env: Env): Result<bool, PatternError>
    decreases p, 1
  {
    var named := NamedFrom(p, obj, env, 0);
    if named != Ok(true) then named else UnnamedFrom(p.unnamed, obj, env, 0)
  }

  /** Whether keyword attribute `v` accepts `x`: a nested pattern by `==`, any other value by `check_against`. */
  function AttrAccepts(p: Pattern, i: nat, x: Obj, env: Env): Result<bool, PatternError>
    requires i < |p.named|
    decreases p, 0, 0
  {
    assert p.named[i] in p.named;
    match p.named[i].1
    case Nested(q) => Eq(q, x, env)
    case Plain(v) => Ok(env.checkAgainst(v, x))
  }

  /** The first loop of `_check_object_attrs`, from keyword attribute `i` on. */
  function NamedFrom(p: Pattern, obj: Obj, env: Env, i: nat): Result<bool, PatternError>
    requires i <= |p.named|
    decreases p, 0, |p.named| - i + 1
  {
    if i == |p.named| then Ok(true)
    else
      var a := p.named[i].0;
      if a !in obj.fields then Err(MissingAttribute(a))
      else
        var accepted := AttrAccepts(p, i, obj.fields[a], env);
        if accepted != Ok(true) then accepted else NamedFrom(p, obj, env, i + 1)
  }

  /** The search of the inner loop: some attribute listed from position `j` on equals `v`. */
  function FindFrom(obj: Obj, v: Val, env: Env, j: nat): Result<bool, PatternError>
    requires j <= |obj.listing|
    decreases |obj.listing| - j
  {
    if j == |obj.listing| then Ok(false)
    else
      var a := obj.listing[j];
      if a !in obj.fields then Err(MissingAttribute(a))
      else if env.equals(obj.fields[a], v) then Ok(true)
      else FindFrom(obj, v, env, j + 1)
  }

  /** The second loop of `_check_object_attrs`, from positional attribute `k` on. */
  function UnnamedFrom(unnamed: seq<Val>, obj: Obj, env: Env, k: nat): Result<bool, PatternError>
    requires k <= |unnamed|
    decreases |unnamed| - k
  {
    if k == |unnamed| then Ok(true)
    else
      var found := FindFrom(obj, unnamed[k], env, 0);
      if found != Ok(true) then found else UnnamedFrom(unnamed, obj, env, k + 1)
  }

  /**
   * `_check_object_attrs` as pybryt runs it: a loop over the keyword
   * attributes that returns at the first mismatch, then a loop over the
   * positional ones with a `has_attr` flag set by an inner search of `dir`.
   * A failed `getattr` raises.
   */
  method CheckObjectAttrs(p: Pattern, obj: Obj, env: Env) returns (r: Result<bool, PatternError>)
    ensures r == AttrsMatch(p, obj, env)
  {
    var i := 0;
    while i < |p.named|
      invariant 0 <= i <= |p.named|
      invariant NamedFrom(p, obj, env, 0) == NamedFrom(p, obj, env, i)
    {
      var (a, v) := p.named[i];
      if a !in obj.fields {
        return Err(MissingAttribute(a));
      }
      var x := obj.fields[a];
      if v.Nested? {
        var same := Eq(v.pattern, x, env);
        if same.Err? {
          return same;
        }
        if !same.value {
          return Ok(false);
        }
      } else if !env.checkAgainst(v.value, x) {
        return Ok(false);
      }
      i := i + 1;
    }
    var k := 0;
    while k < |p.unnamed|
      invariant 0 <= k <= |p.unnamed|
      invariant UnnamedFrom(p.unnamed, obj, env, 0) == UnnamedFrom(p.unnamed, obj, env, k)
    {
      var v := p.unnamed[k];
      var hasAttr := false;
      var j := 0;
      while j < |obj.listing|
        invariant 0 <= j <= |obj.listing|
        invariant FindFrom(obj, v, env, 0) == FindFrom(obj, v, env, j)
      {
        var a := obj.listing[j];
        if a !in obj.fields {
          return Err(MissingAttribute(a));
        }
        if env.equals(obj.fields[a], v) {
          hasAttr := true;
          break;
        }
        j := j + 1;
      }
      if !hasAttr {
        return Ok(false);
      }
      k := k + 1;
    }
    return Ok(true);
  }

  /** Every name `dir` lists can be read with `getattr`. */
  predicate ListingReadable(obj: Obj)
  {
    forall j :: 0 <= j < |obj.listing| ==> obj.listing[j] in obj.fields
  }

  /** A positional attribute is found exactly when some listed attribute equals it. */
  lemma {:induction false} FindFromMeaning(obj: Obj, v: Val, env: Env, j: nat)
    requires j <= |obj.listing| && ListingReadable(obj)
    ensures FindFrom(obj, v, env, j).Ok?
    ensures FindFrom(obj, v, env, j).value <==>
              exists m :: j <= m < |obj.listing| && env.equals(obj.fields[obj.listing[m]], v)
    decreases |obj.listing| - j
  {
    if j < |obj.listing| {
      FindFromMeaning(obj, v, env, j + 1);
    }
  }

  /** Whether keyword attribute `i` is present on `obj` and accepts its value. */
  predicate NamedOk(p: Pattern, obj: Obj, env: Env, i: nat)
    requires i < |p.named|
  {
    p.named[i].0 in obj.fields && AttrAccepts(p, i, obj.fields[p.named[i].0], env) == Ok(true)
  }

  /** The keyword attributes from `i` on all match exactly when each is present and accepted. */
  lemma {:induction false} NamedFromMeaning(p: Pattern, obj: Obj, env: Env, i: nat)
    requires i <= |p.named|
    ensures NamedFrom(p, obj, env, i) == Ok(true) <==> forall m :: i <= m < |p.named| ==> NamedOk(p, obj, env, m)
    decreases |p.named| - i
  {
    if i < |p.named| {
      NamedFromMeaning(p, obj, env, i + 1);
      var a := p.named[i].0;
      if a in obj.fields {
        assert NamedFrom(p, obj, env, i) == Ok(true) <==>
               AttrAccepts(p, i, obj.fields[a], env) == Ok(true) && NamedFrom(p, obj, env, i + 1) == Ok(true);
      }
      assert (forall m :: i <= m < |p.named| ==> NamedOk(p, obj, env, m)) <==>
             NamedOk(p, obj, env, i) && forall m :: i + 1 <= m < |p.named| ==> NamedOk(p, obj, env, m);
    }
  }

  /** The positional attributes from `k` on all match exactly when each equals some listed attribute. */
  lemma {:induction false} UnnamedFromMeaning(unnamed: seq<Val>, obj: Obj, env: Env, k: nat)
    requires k <= |unnamed| && ListingReadable(obj)
    ensures UnnamedFrom(unnamed, obj, env, k).Ok?
    ensures UnnamedFrom(unnamed, obj, env, k).value <==>
              forall n :: k <= n < |unnamed| ==>
                exists m :: 0 <= m < |obj.listing| && env.equals(obj.fields[obj.listing[m]], unnamed[n])
    decreases |unnamed| - k
  {
    if k < |unnamed| {
      FindFromMeaning(obj, unnamed[k], env, 0);
      UnnamedFromMeaning(unnamed, obj, env, k + 1);
    }
  }

  /**
   * `_check_object_attrs` holds exactly when every keyword attribute is
   * present and accepted and every positional attribute equals some
   * attribute `dir` lists; with no attributes at all it holds for any object.
   */
  lemma {:induction false} AttrsMatchMeaning(p: Pattern, obj: Obj, env: Env)
    requires ListingReadable(obj)
    ensures AttrsMatch(p, obj, env) == Ok(true) <==>
              && (forall i :: 0 <= i < |p.named| ==> NamedOk(p, obj, env, i))
              && (forall n :: 0 <= n < |p.unnamed| ==>
                    exists m :: 0 <= m < |obj.listing| && env.equals(obj.fields[obj.listing[m]], p.unnamed[n]))
    ensures p.named == [] && p.unnamed == [] ==> AttrsMatch(p, obj, env) == Ok(true)
  {
    NamedFromMeaning(p, obj, env, 0);
    UnnamedFromMeaning(p.unnamed, obj, env, 0);
  }

  /**
   * With no module path no import happens: the pattern matches exactly when
   * the object's class has the pattern's name and the attributes match, so a
   * root pattern without a name matches nothing.
   */
  lemma {:induction false} EqByNameOnly(p: Pattern, obj: Obj, env: Env)
    requires p.parents == []
    ensures Eq(p, obj, env) == Ok(true) <==> p.curr == Some(obj.className) && AttrsMatch(p, obj, env) == Ok(true)
    ensures p.curr != Some(obj.className) ==> Eq(p, obj, env) == Ok(false)
  {
  }

  /**
   * The example of the class documentation: `structural.DataFrame()` equals
   * any object whose class is called `DataFrame`, whatever its attributes and
   * whichever module defines it.
   */
  lemma {:induction false} DataFrameExample(fields: map<string, Obj>, listing: seq<string>, env: Env)
    ensures Call(GetAttr(Root(), "DataFrame").value, [], []).Ok?
    ensures Eq(Call(GetAttr(Root(), "DataFrame").value, [], []).value, Obj("DataFrame", fields, listing), env) == Ok(true)
  {
  }
}
