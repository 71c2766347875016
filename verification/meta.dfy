/**
 * `Singleton` from wtf/meta.py: `__new__` keeps the one instance of each
 * subclass in the `__it__` attribute of that subclass's own `__dict__`,
 * and runs the subclass's `init` hook only when it creates that instance.
 */
module Meta {
  import opened Wrappers

  /** A Python class, by identity. */
  type ClassId = string

  /** The positional and keyword arguments of a constructor call. */
  type Args = seq<string>

  /** An object made by `object.__new__(cls)`. */
  class Instance {
    const cls: ClassId

    constructor (cls: ClassId)
      ensures this.cls == cls
    {
      this.cls := cls;
    }
  }

  /** A call of `it.init(*args, **kwds)`. */
  datatype InitCall = InitCall(it: Instance, args: Args)

  /** How many `init` calls were made on an instance of class `c`. */
  ghost function InitCount(calls: seq<InitCall>, c: ClassId): nat {
    if calls == [] then 0
    else InitCount(calls[..|calls| - 1], c) + (if calls[|calls| - 1].it.cls == c then 1 else 0)
  }

  /** The `__it__` entries of the `__dict__` of every `Singleton` subclass. */
  class Singletons {
    var it: map<ClassId, Instance>
    /** Every call of `init` so far. */
    ghost var inits: seq<InitCall>

    /**
     * Each class caches an instance of itself, and `init` has run exactly
     * once for each class with a cached instance and never for another.
     */
    ghost predicate Valid()
      reads this
    {
      && (forall c :: c in it ==> it[c].cls == c)
      && (forall c :: InitCount(inits, c) == if c in it then 1 else 0)
      && (forall k :: 0 <= k < |inits| ==> inits[k].it.cls in it && it[inits[k].it.cls] == inits[k].it)
    }

    constructor ()
      ensures Valid() && it == map[] && inits == []
    {
      it := map[];
      inits := [];
    }

    /**
     * `Singleton.__new__(cls, *args)`.  `initRaises` says whether the
     * subclass's `init` raises; the instance is already cached by then, so
     * it stays cached, and the result is `None` for the exception.
     */
    method New(cls: ClassId, args: Args, initRaises: bool) returns (r: Option<Instance>)
      requires Valid()
      modifies this
      ensures Valid()
      ensures cls in it && it[cls].cls == cls
      ensures old(cls in it) ==> r == Some(it[cls]) && it == old(it) && inits == old(inits)
      ensures old(cls !in it) ==>
        && fresh(it[cls])
        && it == old(it)[cls := it[cls]]
        && inits == old(inits) + [InitCall(it[cls], args)]
        && r == (if initRaises then None else Some(it[cls]))
    {
      if cls in it {
        return Some(it[cls]);
      }
      var x := new Instance(cls);
      it := it[cls := x];
      assert (inits + [InitCall(x, args)])[..|inits|] == inits;
      inits := inits + [InitCall(x, args)];
      if initRaises {
        return None;
      }
      return Some(x);
    }
  }

  /**
   * Constructing a class twice yields the one instance and runs `init`
   * once, with the first call's arguments; a subclass constructed after its
   * base still gets an instance of its own.
   */
  method ConstructTwiceThenSubclass(s: Singletons, base: ClassId, sub: ClassId)
    requires s.Valid() && base !in s.it && sub !in s.it && base != sub
    modifies s
  {
    var a := s.New(base, ["first"], false);
    var b := s.New(base, ["second"], false);
    assert a == b;
    assert InitCount(s.inits, base) == 1;
    assert s.inits[|s.inits| - 1].args == ["first"];
    var c := s.New(sub, [], false);
    assert c.value != a.value;
    assert InitCount(s.inits, sub) == 1;
  }
}
