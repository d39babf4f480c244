/** Cron entries, the sorted sets that hold them, and the crons file: printer and parser. */
module CronText {
  import opened Text

  datatype Entry = Entry(job: string, expr: string)

  /** cron_entry::operator<: by job, then by expression. */
  predicate Before(a: Entry, b: Entry)
  {
    Less(a.job, b.job) || (a.job == b.job && Less(a.expr, b.expr))
  }

  lemma BeforeIrreflexive(a: Entry)
    ensures !Before(a, a)
  {
    LessIrreflexive(a.job);
    LessIrreflexive(a.expr);
  }

  lemma BeforeTransitive(a: Entry, b: Entry, c: Entry)
    requires Before(a, b) && Before(b, c)
    ensures Before(a, c)
  {
    LessIrreflexive(a.job);
    if Less(a.job, b.job) && Less(b.job, c.job) { LessTransitive(a.job, b.job, c.job); }
    if a.job == b.job == c.job { LessTransitive(a.expr, b.expr, c.expr); }
  }

  lemma BeforeTotal(a: Entry, b: Entry)
    ensures a == b || Before(a, b) || Before(b, a)
  {
    LessTotal(a.job, b.job);
    LessTotal(a.expr, b.expr);
  }

  // ---- std::set<cron_entry> as its elements in iteration order -------------------------

  predicate Sorted(s: seq<Entry>)
  {
    forall i, j {:trigger Before(s[i], s[j])} :: 0 <= i < j < |s| ==> Before(s[i], s[j])
  }

  function Elements(s: seq<Entry>): set<Entry> { set e | e in s }

  /** insert: nothing changes when the entry is already there. */
  function Insert(s: seq<Entry>, e: Entry): seq<Entry>
  {
    if s == [] || Before(e, s[0]) then [e] + s
    else if e == s[0] then s
    else [s[0]] + Insert(s[1..], e)
  }

  lemma {:induction false} InsertSorted(s: seq<Entry>, e: Entry)
    requires Sorted(s)
    ensures Sorted(Insert(s, e)) && Elements(Insert(s, e)) == Elements(s) + {e}
  {
    if s != [] {
      if Before(e, s[0]) {
        forall j | 0 < j < |s| ensures Before(e, s[j]) { BeforeTransitive(e, s[0], s[j]); }
      } else if e != s[0] {
        BeforeTotal(e, s[0]);
        InsertSorted(s[1..], e);
        var r := Insert(s[1..], e);
        forall j | 0 <= j < |r| ensures Before(s[0], r[j]) { assert r[j] in Elements(s[1..]) + {e}; }
        assert Elements(s) == {s[0]} + Elements(s[1..]);
        assert Elements([s[0]] + r) == {s[0]} + Elements(r);
      }
    }
  }

  /** Where an entry stands between two parts of a sorted sequence, insert puts it there. */
  lemma {:induction false} InsertBetween(a: seq<Entry>, e: Entry, b: seq<Entry>)
    requires Sorted(a + b)
    requires forall x :: x in a ==> Before(x, e)
    requires forall x :: x in b ==> Before(e, x)
    ensures Insert(a + b, e) == a + [e] + b
  {
    if a == [] {
      assert a + b == b;
    } else {
      BeforeIrreflexive(e);
      if Before(e, a[0]) { BeforeTransitive(e, a[0], e); }
      assert (a + b)[1..] == a[1..] + b;
      InsertBetween(a[1..], e, b);
    }
  }

  /** Two sorted sequences with the same elements are the same sequence. */
  lemma {:induction false} SortedUnique(s: seq<Entry>, t: seq<Entry>)
    requires Sorted(s) && Sorted(t) && Elements(s) == Elements(t)
    ensures s == t
  {
    assert s != [] ==> s[0] in Elements(s);
    assert t != [] ==> t[0] in Elements(t);
    if s != [] && t != [] {
      assert s[0] in Elements(t) && t[0] in Elements(s);
      BeforeIrreflexive(s[0]);
      BeforeIrreflexive(t[0]);
      if s[0] != t[0] { BeforeTransitive(s[0], t[0], s[0]); }
      Rest(s);
      Rest(t);
      SortedUnique(s[1..], t[1..]);
      assert s == [s[0]] + s[1..] && t == [t[0]] + t[1..];
    }
  }

  lemma Rest(s: seq<Entry>)
    requires Sorted(s) && s != []
    ensures Elements(s[1..]) == Elements(s) - {s[0]}
  {
    BeforeIrreflexive(s[0]);
    assert s == [s[0]] + s[1..];
    assert forall e :: e in s[1..] ==> Before(s[0], e);
  }

  /** erase by key. */
  function Erase(s: seq<Entry>, e: Entry): seq<Entry>
  {
    if s == [] then [] else if s[0] == e then s[1..] else [s[0]] + Erase(s[1..], e)
  }

  lemma {:induction false} EraseSorted(s: seq<Entry>, e: Entry)
    requires Sorted(s)
    ensures Sorted(Erase(s, e)) && Elements(Erase(s, e)) == Elements(s) - {e}
  {
    if s != [] {
      Rest(s);
      if s[0] != e {
        EraseSorted(s[1..], e);
        var r := Erase(s[1..], e);
        forall j | 0 <= j < |r| ensures Before(s[0], r[j]) { assert r[j] in Elements(r); }
        assert Elements([s[0]] + r) == {s[0]} + Elements(r);
      }
    }
  }

  /** The one sorted sequence of a set. */
  ghost function Listed(s: set<Entry>): (r: seq<Entry>)
    ensures Sorted(r) && Elements(r) == s
  {
    if s == {} then [] else
      var e :| e in s;
      var r := Listed(s - {e});
      InsertSorted(r, e);
      Insert(r, e)
  }

  // ---- the input stream ----------------------------------------------------------------

  /** An istream over a text: what is left, and good() -- false once a read met the end. */
  datatype Stream = Stream(rest: string, good: bool)

  /** std::getline with a delimiter: a stream that is not good yields "". */
  function GetLine(s: Stream, delim: char): (string, Stream)
  {
    if !s.good then ("", s)
    else
      var i := IndexOf(s.rest, delim);
      if i < |s.rest| then (s.rest[..i], Stream(s.rest[i + 1..], true)) else (s.rest, Stream("", false))
  }

  /** The records that reading finds, in file order: it stops at the first empty field or at the end. */
  function Records(s: Stream): (r: seq<Entry>)
    decreases |s.rest|, s.good
  {
    if !s.good then []
    else
      var (job, s1) := GetLine(s, ' ');
      var (expr, s2) := GetLine(s1, '\n');
      if job == "" || expr == "" then [] else [Entry(job, expr)] + Records(s2)
  }

  function Parse(text: string): set<Entry> { Elements(Records(Stream(text, true))) }

  /** The reading loop of load_cron_list and cron_manager::update. */
  method ReadCrons(text: string) returns (crons: seq<Entry>)
    ensures Sorted(crons) && Elements(crons) == Parse(text)
  {
    crons := [];
    var stream := Stream(text, true);
    while stream.good
      invariant Sorted(crons) && Elements(crons) + Elements(Records(stream)) == Parse(text)
      decreases |stream.rest|, stream.good
    {
      ghost var before := Records(stream);
      var (job, s1) := GetLine(stream, ' ');
      var (expr, s2) := GetLine(s1, '\n');
      if job == "" || expr == "" {
        break;
      }
      InsertSorted(crons, Entry(job, expr));
      assert before == [Entry(job, expr)] + Records(s2);
      crons := Insert(crons, Entry(job, expr));
      stream := s2;
    }
  }

  // ---- the printer ---------------------------------------------------------------------

  function PrintEntry(e: Entry): string { e.job + " " + e.expr + "\n" }

  /** cron_list::save: one line per entry. */
  function Print(s: seq<Entry>): string
  {
    if s == [] then "" else PrintEntry(s[0]) + Print(s[1..])
  }

  /** Entries that a line of the file can hold. */
  predicate WellFormed(e: Entry)
  {
    e.job != "" && ' ' !in e.job && e.expr != "" && '\n' !in e.expr
  }

  lemma GetLineAt(a: string, b: string, delim: char)
    requires delim !in a
    ensures GetLine(Stream(a + [delim] + b, true), delim) == (a, Stream(b, true))
  {
    var s := a + [delim] + b;
    assert s[..|a|] == a && s[|a| + 1..] == b;
    IndexOfUnique(s, delim, |a|);
  }

  lemma OneRecord(e: Entry, rest: string, text: string)
    requires WellFormed(e) && text == PrintEntry(e) + rest
    ensures Records(Stream(text, true)) == [e] + Records(Stream(rest, true))
  {
    assert text == e.job + " " + (e.expr + "\n" + rest);
    GetLineAt(e.job, e.expr + "\n" + rest, ' ');
    GetLineAt(e.expr, rest, '\n');
  }

  lemma PrintFront(e: Entry, s: seq<Entry>, t: string)
    ensures Print([e] + s) + t == PrintEntry(e) + (Print(s) + t)
  {
    assert ([e] + s)[1..] == s;
  }

  lemma PrintApart(s: seq<Entry>, t: string)
    requires s != []
    ensures Print(s) + t == PrintEntry(s[0]) + (Print(s[1..]) + t)
  {
  }

  lemma NothingPrinted(s: seq<Entry>, t: string, tail: seq<Entry>)
    requires s == []
    ensures Print(s) + t == t && s + tail == tail
  {
  }

  /** Complete lines in front of any text give their entries, and what follows is read as if it stood
      alone. */
  lemma {:induction false} RecordsAfterLines(s: seq<Entry>, t: string, tail: seq<Entry>)
    requires (forall e :: e in s ==> WellFormed(e)) && tail == Records(Stream(t, true))
    ensures Records(Stream(Print(s) + t, true)) == s + tail
  {
    if s == [] {
      NothingPrinted(s, t, tail);
    } else {
      RecordsAfterLines(s[1..], t, tail);
      PrintApart(s, t);
      OneRecord(s[0], Print(s[1..]) + t, Print(s) + t);
      Prepended(s, tail, Records(Stream(Print(s) + t, true)));
    }
  }

  lemma Prepended(s: seq<Entry>, tail: seq<Entry>, all: seq<Entry>)
    requires s != [] && all == [s[0]] + (s[1..] + tail)
    ensures all == s + tail
  {
  }

  lemma RecordsPrint(s: seq<Entry>)
    requires forall e :: e in s ==> WellFormed(e)
    ensures Records(Stream(Print(s), true)) == s
  {
    assert IndexOf("", ' ') == 0;
    assert Print(s) + "" == Print(s);
    RecordsAfterLines(s, "", []);
  }

  lemma GetLineAtEnd(a: string, delim: char)
    requires delim !in a
    ensures GetLine(Stream(a, true), delim) == (a, Stream("", false))
  {
    assert a[..|a|] == a;
    IndexOfUnique(a, delim, |a|);
  }

  lemma OneLast(e: Entry, t: string)
    requires WellFormed(e) && t == e.job + " " + e.expr
    ensures Records(Stream(t, true)) == [e]
  {
    GetLineAt(e.job, e.expr, ' ');
    GetLineAtEnd(e.expr, '\n');
  }

  /** The last entry needs no line end. */
  lemma ParseLastEntry(s: seq<Entry>, e: Entry)
    requires WellFormed(e) && forall x :: x in s ==> WellFormed(x)
    ensures Parse(Print(s) + e.job + " " + e.expr) == Elements(s) + {e}
  {
    var t := e.job + " " + e.expr;
    OneLast(e, t);
    RecordsAfterLines(s, t, [e]);
    Regroup(Print(s), e.job, " ", e.expr);
    assert Elements(s + [e]) == Elements(s) + {e};
  }

  lemma Regroup(a: string, b: string, c: string, d: string)
    ensures a + b + c + d == a + (b + c + d)
  {
  }

  /** No complete record is at the front: there is no space, or one of the two fields is empty. */
  predicate NoRecord(t: string)
  {
    var i := IndexOf(t, ' ');
    i == |t| || i == 0 || i + 1 == |t| || t[i + 1] == '\n'
  }

  /** Behind complete lines such a text ends the reading and adds nothing. */
  lemma ParseNoRecord(s: seq<Entry>, t: string)
    requires NoRecord(t) && forall x :: x in s ==> WellFormed(x)
    ensures Parse(Print(s) + t) == Elements(s)
  {
    RecordsAfterLines(s, t, Records(Stream(t, true)));
    var (job, s1) := GetLine(Stream(t, true), ' ');
    assert s1.good && s1.rest != "" && s1.rest[0] == '\n' ==> IndexOf(s1.rest, '\n') == 0;
    assert Records(Stream(t, true)) == [];
  }

  /** Any other text begins with an entry, up to a line end or to its own end. */
  lemma FrontEntry(text: string) returns (e: Entry, rest: string, whole: bool)
    requires !NoRecord(text)
    ensures WellFormed(e) && |rest| < |text|
    ensures text == if whole then PrintEntry(e) + rest else e.job + " " + e.expr
  {
    var i := IndexOf(text, ' ');
    var behind := text[i + 1..];
    var k := IndexOf(behind, '\n');
    e := Entry(text[..i], behind[..k]);
    assert e.expr[0] == behind[0];
    assert text == e.job + " " + behind;
    whole := k < |behind|;
    if whole {
      rest := behind[k + 1..];
      assert behind == e.expr + "\n" + rest;
    } else {
      rest := "";
    }
  }

  /** Those are all the texts there are: complete lines, then a last entry without a line end or something
      that holds no record. A job may hold newlines. */
  lemma {:induction false} TextParts(text: string) returns (s: seq<Entry>, last: seq<Entry>, t: string)
    ensures forall x :: x in s + last ==> WellFormed(x)
    ensures |last| <= 1 && (last == [] ==> NoRecord(t)) && (last != [] ==> t == last[0].job + " " + last[0].expr)
    ensures text == Print(s) + t
    decreases |text|
  {
    if NoRecord(text) {
      return [], [], text;
    }
    var e, rest, whole := FrontEntry(text);
    if !whole {
      return [], [e], text;
    }
    s, last, t := TextParts(rest);
    PrintFront(e, s, t);
    s := [e] + s;
  }

  /** So what is read from a text is decided by its parts. */
  lemma ParseParts(text: string) returns (s: seq<Entry>, last: seq<Entry>, t: string)
    ensures text == Print(s) + t && (last == [] ==> NoRecord(t))
    ensures |last| <= 1 && (last != [] ==> t == last[0].job + " " + last[0].expr)
    ensures Parse(text) == Elements(s + last)
  {
    s, last, t := TextParts(text);
    assert forall x :: x in s ==> x in s + last;
    if last == [] {
      ParseNoRecord(s, t);
      assert s + last == s;
    } else {
      var e := last[0];
      assert last == [e] && e in s + last;
      ParseLastEntry(s, e);
      Regroup(Print(s), e.job, " ", e.expr);
      assert Elements(s + [e]) == Elements(s) + {e};
    }
  }

  /** The lines of a saved list, in order. */
  lemma {:induction false} PrintLines(s: seq<Entry>, e: Entry)
    ensures Print([]) == "" && Print(s + [e]) == Print(s) + (e.job + " " + e.expr + "\n")
  {
    if s == [] {
      assert s + [e] == [e] && [e][1..] == [];
    } else {
      var line := PrintEntry(e);
      PrintLines(s[1..], e);
      assert (s + [e])[1..] == s[1..] + [e];
      assert PrintEntry(s[0]) + (Print(s[1..]) + line) == Print(s) + line;
    }
  }

  /** Whatever the text, reading yields only entries that a line can hold. */
  lemma {:induction false} RecordsWellFormed(s: Stream)
    ensures forall e :: e in Records(s) ==> WellFormed(e)
    decreases |s.rest|, s.good
  {
    if s.good {
      var (job, s1) := GetLine(s, ' ');
      var (expr, s2) := GetLine(s1, '\n');
      if job != "" && expr != "" {
        FieldFree(s, ' ');
        FieldFree(s1, '\n');
        RecordsWellFormed(s2);
      }
    }
  }

  lemma FieldFree(s: Stream, delim: char)
    ensures delim !in GetLine(s, delim).0
  {
    var i := IndexOf(s.rest, delim);
    if i == |s.rest| { assert s.rest[..i] == s.rest; }
  }

  /** Printing a sorted set and parsing it gives the set back exactly when all its entries are
      well formed. */
  lemma ParsePrintExactly(s: seq<Entry>)
    ensures Parse(Print(s)) == Elements(s) <==> forall e :: e in s ==> WellFormed(e)
  {
    if forall e :: e in s ==> WellFormed(e) {
      RecordsPrint(s);
    }
    if Parse(Print(s)) == Elements(s) {
      RecordsWellFormed(Stream(Print(s), true));
      forall e | e in s
        ensures WellFormed(e)
      {
        assert e in Parse(Print(s));
      }
    }
  }

  /** For every text at all -- cut-off lines, no last newline, newlines in the job field -- what
      was read is what is read again after saving it. */
  lemma ReparseStable(text: string, crons: seq<Entry>)
    requires Sorted(crons) && Elements(crons) == Parse(text)
    ensures Parse(Print(crons)) == Parse(text)
  {
    RecordsWellFormed(Stream(text, true));
    forall e | e in crons
      ensures WellFormed(e)
    {
      assert e in Elements(crons);
    }
    ParsePrintExactly(crons);
  }
}
