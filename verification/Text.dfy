/** Text helpers shared by the file formats: first occurrence of a character, lines, and the
    lexicographic order that std::map and std::set use on std::string keys. */
module Text {

  datatype Option<+T> = None | Some(value: T)

  /** Position of the first c in s, or |s| when there is none. */
  function IndexOf(s: string, c: char): (i: nat)
    ensures i <= |s|
    ensures c !in s[..i]
    ensures i < |s| ==> s[i] == c
  {
    if s == "" || s[0] == c then 0 else 1 + IndexOf(s[1..], c)
  }

  lemma IndexOfUnique(s: string, c: char, i: nat)
    requires i <= |s| && c !in s[..i]
    requires i < |s| ==> s[i] == c
    ensures IndexOf(s, c) == i
  {
    assert forall k :: 0 <= k < i ==> s[k] == s[..i][k];
    var j := IndexOf(s, c);
    assert forall k :: 0 <= k < j ==> s[k] == s[..j][k];
  }

  /** The pieces of s between newlines; the last piece is what follows the last newline. */
  function Split(s: string): (lines: seq<string>)
    ensures |lines| >= 1
    decreases |s|
  {
    var i := IndexOf(s, '\n');
    if i == |s| then [s] else [s[..i]] + Split(s[i + 1..])
  }

  function Join(lines: seq<string>): string
  {
    if lines == [] then "" else if |lines| == 1 then lines[0] else lines[0] + "\n" + Join(lines[1..])
  }

  lemma SplitAtNewline(a: string, b: string)
    requires '\n' !in a
    ensures Split(a + "\n" + b) == [a] + Split(b)
  {
    var s := a + "\n" + b;
    assert s[..|a|] == a && s[|a| + 1..] == b;
    IndexOfUnique(s, '\n', |a|);
  }

  lemma {:induction false} SplitNewlineFree(s: string)
    ensures forall l :: l in Split(s) ==> '\n' !in l
    decreases |s|
  {
    var i := IndexOf(s, '\n');
    if i < |s| { SplitNewlineFree(s[i + 1..]); } else { assert s[..i] == s; }
  }

  lemma SplitOneLine(a: string)
    requires '\n' !in a
    ensures Split(a) == [a]
  {
    assert a[..|a|] == a;
    IndexOfUnique(a, '\n', |a|);
  }

  /** Joining the pieces gives the text back: splitting loses nothing. */
  lemma {:induction false} JoinSplit(s: string)
    ensures Join(Split(s)) == s
    decreases |s|
  {
    var i := IndexOf(s, '\n');
    if i < |s| {
      JoinSplit(s[i + 1..]);
      var rest := Split(s[i + 1..]);
      assert ([s[..i]] + rest)[1..] == rest;
      assert s == s[..i] + "\n" + s[i + 1..];
    }
  }

  /** Splitting is the only way to write s as newline-free pieces joined by newlines. */
  lemma {:induction false} SplitJoin(lines: seq<string>)
    requires lines != []
    requires forall l :: l in lines ==> '\n' !in l
    ensures Split(Join(lines)) == lines
  {
    if |lines| == 1 {
      SplitOneLine(lines[0]);
    } else {
      SplitJoin(lines[1..]);
      SplitAtNewline(lines[0], Join(lines[1..]));
    }
  }

  /** Lexicographic order on character codes. */
  predicate Less(a: string, b: string)
  {
    b != "" && (a == "" || a[0] < b[0] || (a[0] == b[0] && Less(a[1..], b[1..])))
  }

  lemma {:induction false} LessIrreflexive(a: string)
    ensures !Less(a, a)
  {
    if a != "" { LessIrreflexive(a[1..]); }
  }

  lemma {:induction false} LessTransitive(a: string, b: string, c: string)
    requires Less(a, b) && Less(b, c)
    ensures Less(a, c)
  {
    if a != "" && a[0] == b[0] == c[0] { LessTransitive(a[1..], b[1..], c[1..]); }
  }

  lemma {:induction false} LessTotal(a: string, b: string)
    ensures a == b || Less(a, b) || Less(b, a)
  {
    if a != "" && b != "" && a[0] == b[0] {
      LessTotal(a[1..], b[1..]);
      if a[1..] == b[1..] { assert a == [a[0]] + a[1..] && b == [b[0]] + b[1..]; }
    }
  }

  /** At the first difference the smaller character decides, and a proper prefix comes first. */
  lemma {:induction false} LessAtDifference(p: string, a: string, b: string)
    ensures Less(p, p + b) <==> b != ""
    ensures !Less(p + a, p)
    ensures a != "" && b != "" && a[0] != b[0] ==> (Less(p + a, p + b) <==> a[0] < b[0])
  {
    if p == "" {
      assert p + a == a && p + b == b;
    } else {
      LessAtDifference(p[1..], a, b);
      assert (p + a)[1..] == p[1..] + a && (p + b)[1..] == p[1..] + b;
    }
  }

  predicate IsLeast(s: set<string>, k: string)
  {
    k in s && forall o :: o in s && o != k ==> Less(k, o)
  }

  lemma {:induction false} LeastExists(s: set<string>)
    requires s != {}
    ensures exists k :: IsLeast(s, k)
  {
    var x :| x in s;
    var rest := s - {x};
    if rest == {} {
      assert s == {x} && IsLeast(s, x);
    } else {
      LeastExists(rest);
      var k :| IsLeast(rest, k);
      LessTotal(x, k);
      if Less(x, k) {
        forall o | o in s && o != x ensures Less(x, o) {
          if o != k { LessTransitive(x, k, o); }
        }
        assert IsLeast(s, x);
      } else {
        assert IsLeast(s, k);
      }
    }
  }

  lemma LeastUnique(s: set<string>, k: string, o: string)
    requires IsLeast(s, k) && IsLeast(s, o)
    ensures k == o
  {
    if k != o {
      assert k in s && o in s;
      LessTransitive(o, k, o);
      LessIrreflexive(o);
    }
  }

  /** The keys of a std::map<std::string, ...> in iteration order. */
  ghost function InOrder(s: set<string>): (keys: seq<string>)
    ensures forall k :: k in keys <==> k in s
    ensures forall i, j :: 0 <= i < j < |keys| ==> keys[i] != keys[j]
  {
    if s == {} then [] else
      LeastExists(s);
      var k :| IsLeast(s, k);
      [k] + InOrder(s - {k})
  }

  /** Iteration order is ascending and visits each key once. */
  lemma {:induction false} InOrderAscends(s: set<string>)
    ensures |InOrder(s)| == |s|
    ensures forall i, j :: 0 <= i < j < |InOrder(s)| ==> Less(InOrder(s)[i], InOrder(s)[j])
  {
    if s != {} {
      LeastExists(s);
      var k :| IsLeast(s, k);
      InOrderStep(s, k);
      InOrderAscends(s - {k});
      LeastFirst(s, k, InOrder(s - {k}));
    }
  }

  lemma LeastFirst(s: set<string>, k: string, rest: seq<string>)
    requires IsLeast(s, k) && forall x :: x in rest <==> x in s - {k}
    requires forall i, j :: 0 <= i < j < |rest| ==> Less(rest[i], rest[j])
    ensures forall i, j :: 0 <= i < j < |[k] + rest| ==> Less(([k] + rest)[i], ([k] + rest)[j])
  {
    forall j | 0 <= j < |rest| ensures Less(k, rest[j]) { assert rest[j] in rest; }
  }

  lemma InOrderStep(s: set<string>, k: string)
    requires IsLeast(s, k)
    ensures InOrder(s) == [k] + InOrder(s - {k})
  {
    LeastExists(s);
    forall o | IsLeast(s, o)
      ensures o == k
    {
      LeastUnique(s, o, k);
    }
  }
}
