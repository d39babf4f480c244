/** cron_list and the add and del commands of cis_cron, over the text of the crons file. */
module CronCommands {
  import opened Text
  import opened Errors
  import opened CronText

  /** What open_ofstream gives: no stream object, one that did not open, or one that did. Only the
      first is checked for; writing to the second has no effect. */
  datatype OutStream = NoStream | NotOpen | Opened

  class CronList {
    var crons: seq<Entry>

    constructor (crons: seq<Entry>)
      ensures this.crons == crons
    {
      this.crons := crons;
    }

    method Add(e: Entry)
      requires Sorted(crons)
      modifies this
      ensures Sorted(crons) && Elements(crons) == Elements(old(crons)) + {e}
    {
      InsertSorted(crons, e);
      crons := Insert(crons, e);
    }

    method Del(e: Entry) returns (count: nat)
      requires Sorted(crons)
      modifies this
      ensures Sorted(crons) && Elements(crons) == Elements(old(crons)) - {e}
      ensures count == if e in old(crons) then 1 else 0
    {
      EraseSorted(crons, e);
      count := if e in crons then 1 else 0;
      crons := Erase(crons, e);
    }

    /** save: text is the file before, and after the call the file is saved. */
    method Save(text: string, out: OutStream) returns (saved: string, ec: Error)
      ensures saved == if out == Opened then Print(crons) else text
      ensures ec == if out == NoStream then CantWriteCrons else Ok
    {
      if out == NoStream {
        return text, CantWriteCrons;
      }
      if out == NotOpen {
        return text, Ok;
      }
      var i := 0;
      saved := "";
      while i < |crons|
        invariant i <= |crons| && saved + Print(crons[i..]) == Print(crons)
      {
        assert crons[i..][1..] == crons[i + 1..];
        saved := saved + PrintEntry(crons[i]);
        i := i + 1;
      }
      assert saved + "" == saved;
      ec := Ok;
    }
  }

  /** One run of cis_cron; valid says whether make_cron accepts the expression. */
  datatype Command = Add(entry: Entry, valid: bool) | Del(entry: Entry, valid: bool)

  /** What a command does to the set of entries, when the file can be read and written. */
  function Meaning(entries: set<Entry>, c: Command): set<Entry>
  {
    if !c.valid then entries else if c.Add? then entries + {c.entry} else entries - {c.entry}
  }

  /** Does the command get as far as saving? */
  ghost predicate Saves(text: string, c: Command, readable: bool)
  {
    c.valid && readable && (c.Del? ==> c.entry in Parse(text))
  }

  ghost function Execute(text: string, c: Command, readable: bool, out: OutStream): string
  {
    if Saves(text, c, readable) && out == Opened then Print(Listed(Meaning(Parse(text), c))) else text
  }

  /** The crons file as cis_cron processes find it, one command at a time. */
  class CronsFile {
    var text: string
    var notifications: nat

    constructor (text: string)
      ensures this.text == text && notifications == 0
    {
      this.text, notifications := text, 0;
    }

    /** add and del of cis_cron: the file and whether the daemon is notified. */
    method Apply(c: Command, readable: bool, out: OutStream) returns (success: bool)
      modifies this
      ensures text == Execute(old(text), c, readable, out)
      ensures success <==> Saves(old(text), c, readable) && out != NoStream
      ensures notifications == old(notifications) + if success then 1 else 0
      ensures success <==>
                c.valid && readable && out != NoStream && (c.Del? ==> c.entry in Parse(old(text)))
      ensures !success || out != Opened ==> text == old(text)
      ensures success && out == Opened && (c.Add? ==> WellFormed(c.entry)) ==> forall e ::
                e in Parse(text) <==> if e == c.entry then c.Add? else e in Parse(old(text))
    {
      if !c.valid || !readable {
        return false;
      }
      var crons := ReadCrons(text);
      var list := new CronList(crons);
      if c.Add? {
        list.Add(c.entry);
      } else {
        var count := list.Del(c.entry);
        assert c.entry in crons <==> c.entry in Elements(crons);
        if count != 1 {
          return false;
        }
      }
      SortedUnique(list.crons, Listed(Meaning(Parse(text), c)));
      var saved, ec := list.Save(text, out);
      text := saved;
      if ec != Ok {
        return false;
      }
      notifications := notifications + 1;
      if out == Opened {
        TakesEffectExactly(old(text), c);
      }
      return true;
    }
  }

  // ---- what sequences of commands mean -------------------------------------------------

  ghost function ExecuteAll(text: string, cs: seq<Command>): string
    decreases |cs|
  {
    if cs == [] then text else ExecuteAll(Execute(text, cs[0], true, Opened), cs[1..])
  }

  function Fold(entries: set<Entry>, cs: seq<Command>): set<Entry>
    decreases |cs|
  {
    if cs == [] then entries else Fold(Meaning(entries, cs[0]), cs[1..])
  }

  lemma ParsedWellFormed(text: string)
    ensures forall e :: e in Parse(text) ==> WellFormed(e)
  {
    RecordsWellFormed(Stream(text, true));
  }

  /** A command on a file that can be read and written has its meaning on the entries read back
      exactly when it adds no entry that a line cannot hold. */
  lemma TakesEffectExactly(text: string, c: Command)
    ensures Parse(Execute(text, c, true, Opened)) == Meaning(Parse(text), c)
       <==> (c.Add? && c.valid ==> WellFormed(c.entry))
  {
    ParsedWellFormed(text);
    var goal := Meaning(Parse(text), c);
    if Saves(text, c, true) {
      var s := Listed(goal);
      ParsePrintExactly(s);
      assert forall e :: e in s <==> e in goal;
      assert c.Add? ==> c.entry in goal;
    }
  }

  /** A command that reports success has had its meaning exactly when the file opened for writing and it
      added no entry that a line cannot hold, or the file did not open and the entry to add was there. */
  lemma SuccessTakesEffectExactly(text: string, c: Command, readable: bool, out: OutStream)
    requires Saves(text, c, readable) && out != NoStream
    ensures Parse(Execute(text, c, readable, out)) == Meaning(Parse(text), c)
       <==> if out == Opened then c.Add? ==> WellFormed(c.entry) else c.Add? && c.entry in Parse(text)
  {
    if out == Opened {
      TakesEffectExactly(text, c);
    } else {
      assert c.entry in Meaning(Parse(text), c) <==> c.Add?;
    }
  }

  /** Any sequence of commands on any text leaves a file that denotes the fold of the commands
      over the set of entries. */
  lemma {:induction false} CommandsDenoteFold(text: string, cs: seq<Command>)
    requires forall c :: c in cs && c.Add? && c.valid ==> WellFormed(c.entry)
    ensures Parse(ExecuteAll(text, cs)) == Fold(Parse(text), cs)
    decreases |cs|
  {
    if cs != [] {
      assert cs[0] in cs;
      TakesEffectExactly(text, cs[0]);
      CommandsDenoteFold(Execute(text, cs[0], true, Opened), cs[1..]);
    }
  }

  /** Adding an entry with an empty job is saved with success and loses every entry: its line
      sorts first and reading stops there. */
  lemma EmptyJobLosesAll(text: string, expr: string)
    ensures Parse(Execute(text, Add(Entry("", expr), true), true, Opened)) == {}
  {
    var e := Entry("", expr);
    var s := Listed(Parse(text) + {e});
    ParsedWellFormed(text);
    assert e in Elements(s) && s[0] in Elements(s);
    var i :| 0 <= i < |s| && s[i] == e;
    assert i > 0 ==> Before(s[0], s[i]);
    assert s[0] == e;
    var printed := Print(s);
    assert printed[0] == ' ';
    assert IndexOf(printed, ' ') == 0;
    assert Records(Stream(printed, true)) == [];
  }
}
