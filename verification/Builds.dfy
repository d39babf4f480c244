/** The directory of a job and what the core reads from it: which entries are builds, the next free
    number, and how a build counts -- pending, successful or broken. */
module Builds {
  import opened Text
  import opened Numbers

  datatype Node = PlainFile(text: string) | Directory(files: map<string, string>)

  /** The entries of a job directory by name. */
  type Listing = map<string, Node>

  /** Numbers of all entries with a build name, as load_job sees them. */
  function Numbered(l: Listing): (r: set<nat>)
    ensures forall n: nat :: n in r <==> n <= MAX_BUILD && NumberString(n) in l
  {
    var r := set name | name in l && IsBuild(name) :: Value(name);
    NumberedNames(l, r);
    r
  }

  lemma NumberedNames(l: Listing, r: set<nat>)
    requires r == set name | name in l && IsBuild(name) :: Value(name)
    ensures forall n: nat :: n in r <==> n <= MAX_BUILD && NumberString(n) in l
  {
    forall n: nat
      ensures n in r <==> n <= MAX_BUILD && NumberString(n) in l
    {
      NumberStringRoundTrip(n);
      if n in r {
        var name :| name in l && IsBuild(name) && Value(name) == n;
        BuildNameRoundTrip(name);
      }
    }
  }

  /** Of those, the directories: prepare_build counts nothing else. */
  function BuildDirs(l: Listing): set<nat>
  {
    set n | n in Numbered(l) && l[NumberString(n)].Directory?
  }

  /** The greatest element, or -1. */
  ghost function Greatest(s: set<nat>): (m: int)
    ensures m >= -1
    ensures forall n :: n in s ==> n <= m
    ensures m >= 0 ==> m in s
  {
    if s == {} then -1 else
      var x :| x in s;
      var m := Greatest(s - {x});
      assert forall n :: n in s ==> n == x || n in s - {x};
      if x > m then x else m
  }

  ghost function NextNumber(l: Listing): nat { Greatest(BuildDirs(l)) + 1 }

  datatype Class = Pending | Successful | Broken

  /** An entry without a readable exit code is pending; a plain file never has one. */
  function ExitText(node: Node): string
  {
    if node.Directory? && "exitcode.txt" in node.files then FirstLine(node.files["exitcode.txt"]) else ""
  }

  function ClassOf(node: Node): Class
  {
    match U32FromString(ExitText(node))
    case None => Pending
    case Some(e) => if e == 0 then Successful else Broken
  }

  /** The three maps of a job object, from build number to the path (here: the name) of its directory. */
  datatype Maps = Maps(successful: map<nat, string>, broken: map<nat, string>, pending: map<nat, string>)

  function BuildsOf(l: Listing, c: Class): map<nat, string>
  {
    map n | n in Numbered(l) && ClassOf(l[NumberString(n)]) == c :: NumberString(n)
  }

  /** What load_job finds in the directory. */
  function Reload(l: Listing): Maps
  {
    Maps(BuildsOf(l, Successful), BuildsOf(l, Broken), BuildsOf(l, Pending))
  }

  // ---- moving and pruning --------------------------------------------------------------

  /** std::map::insert of a node or emplace: an existing entry wins. */
  function Emplace(m: map<nat, string>, n: nat, path: string): map<nat, string>
  {
    if n in m then m else m[n := path]
  }

  /** The end of execute: the pending node goes to the map its exit code names. */
  function Move(m: Maps, n: nat, ok: bool): Maps
    requires n in m.pending
  {
    var path := m.pending[n];
    if ok then Maps(Emplace(m.successful, n, path), m.broken, m.pending - {n})
    else Maps(m.successful, Emplace(m.broken, n, path), m.pending - {n})
  }

  predicate IsFirst(m: map<nat, string>, n: nat) { n in m && forall o :: o in m ==> n <= o }

  lemma {:induction false} FirstExists(m: map<nat, string>)
    requires m != map[]
    ensures exists n :: IsFirst(m, n)
  {
    var x :| x in m;
    var rest := m - {x};
    assert forall o :: o in m ==> o == x || o in rest;
    if rest == map[] {
      assert IsFirst(m, x);
    } else {
      FirstExists(rest);
      var k :| IsFirst(rest, k);
      assert IsFirst(m, if x <= k then x else k);
    }
  }

  /** begin() of a non-empty map. */
  ghost function First(m: map<nat, string>): (n: nat)
    requires m != map[]
    ensures IsFirst(m, n)
  {
    FirstExists(m);
    var n :| IsFirst(m, n);
    n
  }

  lemma FirstUnique(m: map<nat, string>, n: nat)
    requires IsFirst(m, n)
    ensures n == First(m)
  {
  }

  /** Exactly the count largest numbers of m are kept. */
  ghost predicate KeepsNewest(m: map<nat, string>, kept: map<nat, string>, count: nat)
  {
    && kept.Keys <= m.Keys && (forall n :: n in kept ==> kept[n] == m[n])
    && |kept| == (if |m| <= count then |m| else count)
    && (forall a, b :: a in m && a !in kept && b in kept ==> a < b)
  }

  /** A prefix of the numbers in m is gone: all that is left is above all that is not. */
  ghost predicate DropsOldest(m: map<nat, string>, left: map<nat, string>)
  {
    && left.Keys <= m.Keys && (forall n :: n in left ==> left[n] == m[n])
    && (forall a, b :: a in m && a !in left && b in left ==> a < b)
  }

  lemma DropFirst(m: map<nat, string>, left: map<nat, string>, n: nat)
    requires DropsOldest(m, left) && IsFirst(left, n)
    ensures DropsOldest(m, left - {n}) && |left - {n}| == |left| - 1
  {
    assert (left - {n}).Keys == left.Keys - {n};
    assert |left| == |left.Keys| && |left - {n}| == |(left - {n}).Keys|;
  }
}
