/**
 * The map-backed function registry of squiggly: every function is filed
 * under its lower-cased name and under each of its lower-cased aliases, and
 * a lookup lower-cases the query and answers the list filed under it, or the
 * empty list when nothing is.
 *
 * The Java class builds its index once, in the constructor, with a stream
 * `flatMap` into (key, function) pairs followed by `groupingBy(key, toList())`,
 * and never changes it afterwards; here the index is a value of the datatype
 * `MapFunctionSource`, built by `Create` and read by `FindByName`.
 */
module FunctionSource {

  // ---------------------------------------------------------------------------
  // Lower-casing (ASCII stand-in for String.toLowerCase)
  // ---------------------------------------------------------------------------

  predicate IsUpper(c: char) {
    'A' <= c <= 'Z'
  }

  function LowerChar(c: char): (d: char)
    ensures !IsUpper(d)
    ensures !IsUpper(c) ==> d == c
  {
    if IsUpper(c) then (c as int + 32) as char else c
  }

  /** Lower-cases every ASCII capital letter of `s` and keeps every other character. */
  function Lower(s: string): (r: string)
    ensures |r| == |s|
    ensures forall i :: 0 <= i < |s| ==> r[i] == LowerChar(s[i])
  {
    if s == [] then [] else [LowerChar(s[0])] + Lower(s[1..])
  }

  lemma LowerIdempotent(s: string)
    ensures Lower(Lower(s)) == Lower(s)
  {
    var l := Lower(s);
    assert forall i :: 0 <= i < |l| ==> Lower(l)[i] == l[i];
  }

  // ---------------------------------------------------------------------------
  // Registered functions and the keys they are filed under
  // ---------------------------------------------------------------------------

  /**
   * A registered function as the registry sees it: its canonical name and
   * its aliases. What the function computes is not the registry's business.
   */
  datatype Function = Function(name: string, aliases: seq<string>)

  /** The index key of `f`'s canonical name followed by those of its aliases, in declaration order. */
  function Keys(f: Function): (ks: seq<string>) {
    [Lower(f.name)] + seq(|f.aliases|, j requires 0 <= j < |f.aliases| => Lower(f.aliases[j]))
  }

  /** `f` declares `k`: its name or one of its aliases lower-cases to `k`. */
  predicate Declares(f: Function, k: string) {
    Lower(f.name) == k || exists a :: a in f.aliases && Lower(a) == k
  }

  lemma KeysDeclares(f: Function, k: string)
    ensures k in Keys(f) <==> Declares(f, k)
  {
    var ks := Keys(f);
    if k in ks {
      var i :| 0 <= i < |ks| && ks[i] == k;
      if i > 0 {
        assert f.aliases[i - 1] in f.aliases && Lower(f.aliases[i - 1]) == k;
      }
    }
    if Declares(f, k) && Lower(f.name) != k {
      var a :| a in f.aliases && Lower(a) == k;
      var j :| 0 <= j < |f.aliases| && f.aliases[j] == a;
      assert ks[j + 1] == k;
    }
  }

  /** How many times `k` occurs in `ks`. */
  function Count(ks: seq<string>, k: string): (n: nat) {
    if ks == [] then 0
    else Count(ks[..|ks| - 1], k) + (if ks[|ks| - 1] == k then 1 else 0)
  }

  lemma {:induction false} CountPositive(ks: seq<string>, k: string)
    ensures Count(ks, k) > 0 <==> k in ks
  {
    if ks != [] {
      var init := ks[..|ks| - 1];
      CountPositive(init, k);
      assert ks == init + [ks[|ks| - 1]];
    }
  }

  /** `n` copies of `f`. */
  function Repeat(f: Function, n: nat): (r: seq<Function>) {
    if n == 0 then [] else Repeat(f, n - 1) + [f]
  }

  /**
   * The reference definition of a bucket: walking the registrations in
   * order, each function contributes one copy of itself per occurrence of
   * `k` among its keys. No duplicate is dropped.
   */
  function Registered(fs: seq<Function>, k: string): (r: seq<Function>) {
    if fs == [] then []
    else
      var f := fs[|fs| - 1];
      Registered(fs[..|fs| - 1], k) + Repeat(f, Count(Keys(f), k))
  }

  lemma {:induction false} RegisteredMembers(fs: seq<Function>, k: string, g: Function)
    ensures g in Registered(fs, k) <==> g in fs && Declares(g, k)
  {
    if fs != [] {
      var init, f := fs[..|fs| - 1], fs[|fs| - 1];
      RegisteredMembers(init, k, g);
      assert fs == init + [f];
      RepeatMembers(f, Count(Keys(f), k), g);
      CountPositive(Keys(f), k);
      KeysDeclares(f, k);
    }
  }

  lemma {:induction false} RepeatMembers(f: Function, n: nat, g: Function)
    ensures g in Repeat(f, n) <==> n > 0 && g == f
  {
    if n > 0 {
      RepeatMembers(f, n - 1, g);
    }
  }

  // ---------------------------------------------------------------------------
  // Building the index: flatMap into (key, function) entries, then groupingBy
  // ---------------------------------------------------------------------------

  type Entry = (string, Function)

  /** The entries of one function: `(k, f)` for each key `k` of `ks`, in order. */
  function Tag(ks: seq<string>, f: Function): (es: seq<Entry>)
    ensures |es| == |ks|
    ensures forall i :: 0 <= i < |ks| ==> es[i] == (ks[i], f)
  {
    if ks == [] then [] else Tag(ks[..|ks| - 1], f) + [(ks[|ks| - 1], f)]
  }

  /** The `flatMap` of the constructor: each function's entries, in registration order. */
  function Entries(fs: seq<Function>): (es: seq<Entry>)
    ensures forall i :: 0 <= i < |es| ==> es[i].1 in fs && es[i].0 in Keys(es[i].1)
  {
    if fs == [] then [] else Entries(fs[..|fs| - 1]) + Tag(Keys(fs[|fs| - 1]), fs[|fs| - 1])
  }

  /** The list filed under `k` in `m`, or the empty list. */
  function Lookup(m: map<string, seq<Function>>, k: string): (r: seq<Function>) {
    if k in m then m[k] else []
  }

  /**
   * `groupingBy(getLeft, mapping(getRight, toList()))` on a sequential
   * stream: each entry's function is appended to the list of its key, and a
   * key gets a list the first time it is seen.
   */
  function Group(es: seq<Entry>): (m: map<string, seq<Function>>)
    ensures forall k :: k in m ==> m[k] != []
  {
    if es == [] then map[]
    else
      var m := Group(es[..|es| - 1]);
      var (k, f) := es[|es| - 1];
      m[k := Lookup(m, k) + [f]]
  }

  /** The functions of the entries of `es` whose key is `k`, in order. */
  function Bucket(es: seq<Entry>, k: string): (r: seq<Function>) {
    if es == [] then []
    else Bucket(es[..|es| - 1], k) + (if es[|es| - 1].0 == k then [es[|es| - 1].1] else [])
  }

  lemma {:induction false} GroupBucket(es: seq<Entry>, k: string)
    ensures Lookup(Group(es), k) == Bucket(es, k)
    ensures k in Group(es) <==> Bucket(es, k) != []
  {
    if es != [] {
      GroupBucket(es[..|es| - 1], k);
    }
  }

  lemma {:induction false} BucketConcat(a: seq<Entry>, b: seq<Entry>, k: string)
    ensures Bucket(a + b, k) == Bucket(a, k) + Bucket(b, k)
  {
    if b == [] {
      assert a + b == a;
    } else {
      var init := b[..|b| - 1];
      BucketConcat(a, init, k);
      assert (a + b)[..|a + b| - 1] == a + init;
    }
  }

  lemma {:induction false} BucketTag(ks: seq<string>, f: Function, k: string)
    ensures Bucket(Tag(ks, f), k) == Repeat(f, Count(ks, k))
  {
    if ks != [] {
      var init := ks[..|ks| - 1];
      BucketTag(init, f, k);
      BucketConcat(Tag(init, f), [(ks[|ks| - 1], f)], k);
      assert Bucket([(ks[|ks| - 1], f)], k) == if ks[|ks| - 1] == k then [f] else [];
    }
  }

  lemma {:induction false} BucketEntries(fs: seq<Function>, k: string)
    ensures Bucket(Entries(fs), k) == Registered(fs, k)
  {
    if fs != [] {
      var init, f := fs[..|fs| - 1], fs[|fs| - 1];
      BucketEntries(init, k);
      BucketConcat(Entries(init), Tag(Keys(f), f), k);
      BucketTag(Keys(f), f, k);
    }
  }

  // ---------------------------------------------------------------------------
  // The registry
  // ---------------------------------------------------------------------------

  /** The registry: an index fixed once built; no operation changes it. */
  datatype MapFunctionSource = MapFunctionSource(functionMap: map<string, seq<Function>>)

  /**
   * Both Java constructors (the varargs one delegates to the iterable one):
   * every key's bucket is the registration-order list the reference
   * definition gives, and exactly the keys with a non-empty bucket are present.
   */
  function Create(fs: seq<Function>): (src: MapFunctionSource)
    ensures forall k {:trigger Registered(fs, k)} ::
      Lookup(src.functionMap, k) == Registered(fs, k) && (k in src.functionMap <==> Registered(fs, k) != [])
  {
    CreateBuckets(fs);
    MapFunctionSource(Group(Entries(fs)))
  }

  lemma CreateBuckets(fs: seq<Function>)
    ensures forall k {:trigger Registered(fs, k)} ::
      Lookup(Group(Entries(fs)), k) == Registered(fs, k) && (k in Group(Entries(fs)) <==> Registered(fs, k) != [])
  {
    forall k
      ensures Lookup(Group(Entries(fs)), k) == Registered(fs, k)
      ensures k in Group(Entries(fs)) <==> Registered(fs, k) != []
    {
      GroupBucket(Entries(fs), k);
      BucketEntries(fs, k);
    }
  }

  /** The functions filed under the lower-cased `name`; the empty list on a miss. */
  function FindByName(src: MapFunctionSource, name: string): (r: seq<Function>)
    ensures Lower(name) in src.functionMap ==> r == src.functionMap[Lower(name)]
    ensures Lower(name) !in src.functionMap ==> r == []
  {
    Lookup(src.functionMap, Lower(name))
  }

  // ---------------------------------------------------------------------------
  // Properties of lookup
  // ---------------------------------------------------------------------------

  /** A lookup answers every function that declares the lower-cased query, in registration order, once per declaration. */
  lemma FindByNameRegistered(fs: seq<Function>, name: string)
    ensures FindByName(Create(fs), name) == Registered(fs, Lower(name))
  {
  }

  /** Membership: a lookup answers exactly the registered functions declaring the lower-cased query. */
  lemma FindByNameMembers(fs: seq<Function>, name: string, g: Function)
    ensures g in FindByName(Create(fs), name) <==> g in fs && Declares(g, Lower(name))
  {
    RegisteredMembers(fs, Lower(name), g);
  }

  /** Every case variant of a registered function's name finds it. */
  lemma FindByNameFindsName(fs: seq<Function>, i: nat, name: string)
    requires i < |fs|
    requires Lower(name) == Lower(fs[i].name)
    ensures fs[i] in FindByName(Create(fs), name)
  {
    FindByNameMembers(fs, name, fs[i]);
  }

  /** Every case variant of an alias of a registered function finds it. */
  lemma FindByNameFindsAlias(fs: seq<Function>, i: nat, j: nat, name: string)
    requires i < |fs| && j < |fs[i].aliases|
    requires Lower(name) == Lower(fs[i].aliases[j])
    ensures fs[i] in FindByName(Create(fs), name)
  {
    assert fs[i].aliases[j] in fs[i].aliases;
    FindByNameMembers(fs, name, fs[i]);
  }

  /** A query no registered function declares answers the empty list. */
  lemma FindByNameMiss(fs: seq<Function>, name: string)
    requires forall f :: f in fs ==> !Declares(f, Lower(name))
    ensures FindByName(Create(fs), name) == []
  {
    var r := FindByName(Create(fs), name);
    if r != [] {
      FindByNameMembers(fs, name, r[0]);
      assert false;
    }
  }

  /**
   * Lookup depends on the lower-cased query alone, and a query already in
   * lower case is used as it stands.
   */
  lemma FindByNameCaseInsensitive(src: MapFunctionSource, n: string, m: string)
    requires Lower(n) == Lower(m)
    ensures FindByName(src, n) == FindByName(src, m)
    ensures FindByName(src, Lower(n)) == FindByName(src, n)
  {
    LowerIdempotent(n);
  }

  /**
   * Soundness of the index: every key present is in lower case, its bucket
   * is non-empty, every function in it is registered and declares the key,
   * and looking the key up answers that bucket.
   */
  lemma IndexSound(fs: seq<Function>, k: string)
    requires k in Create(fs).functionMap
    ensures Lower(k) == k
    ensures Create(fs).functionMap[k] != []
    ensures forall g :: g in Create(fs).functionMap[k] ==> g in fs && Declares(g, k)
    ensures FindByName(Create(fs), k) == Create(fs).functionMap[k]
  {
    var bucket := Create(fs).functionMap[k];
    assert bucket == Registered(fs, k);
    forall g | g in bucket
      ensures g in fs && Declares(g, k)
    {
      RegisteredMembers(fs, k, g);
    }
    var g := bucket[0];
    RegisteredMembers(fs, k, g);
    if Lower(g.name) == k {
      LowerIdempotent(g.name);
    } else {
      var a :| a in g.aliases && Lower(a) == k;
      LowerIdempotent(a);
    }
  }

  /** A function `X` with alias `y` is found under `x`, `X`, `y` and `Y`, always as the same list. */
  lemma FindByNameExample()
    ensures var f := Function("X", ["y"]);
      var src := Create([f]);
      && FindByName(src, "x") == [f]
      && FindByName(src, "X") == [f]
      && FindByName(src, "y") == [f]
      && FindByName(src, "Y") == [f]
  {
    var f := Function("X", ["y"]);
    assert Lower("X") == "x" && Lower("x") == "x";
    assert Lower("Y") == "y" && Lower("y") == "y";
    assert Keys(f) == ["x", "y"];
    assert [f][..0] == [];
    var ks: seq<string> := ["x", "y"];
    assert ks[..1] == ["x"] && ks[..1][..0] == [];
    assert Count(Keys(f), "x") == 1;
    assert Count(Keys(f), "y") == 1;
    assert Registered([f], "x") == [f];
    assert Registered([f], "y") == [f];
  }
}
