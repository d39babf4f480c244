/** set_value, get_value and set_param over the text files of a session. */
module SessionStore {
  import opened Text
  import opened Errors
  import opened ParamCodec

  /** What the operating system refuses during one call. */
  datatype Faults = Faults(statFails: bool, openReadFails: bool, openWriteFails: bool)

  const NO_FAULTS := Faults(false, false, false)

  // ---- the file as a map ---------------------------------------------------------------

  /** A file is its text, or None while it does not exist. */
  type File = Option<string>

  function Raw(ws: LineEnds, file: File): Option<map<string, string>>
  {
    match file case None => Some(map[]) case Some(text) => RawMap(ws, text)
  }

  /** The map the getters see; None when they report an error. */
  function View(ws: LineEnds, file: File): Option<map<string, string>>
  {
    match file case None => Some(map[]) case Some(text) => DecodedMap(ws, text)
  }

  /** The map a getter works on under faults: a stat error counts as an absent file. */
  function Loaded(ws: LineEnds, file: File, f: Faults): Option<map<string, string>>
  {
    if f.statFails then Some(map[]) else if file.Some? && f.openReadFails then None else View(ws, file)
  }

  function Lookup(m: map<string, string>, name: string): string
  {
    if name in m then m[name] else ""
  }

  function PairsOf(keys: seq<string>, m: map<string, string>): (pairs: seq<Pair>)
    requires forall k :: k in keys ==> k in m
    ensures |pairs| == |keys|
    ensures forall i :: 0 <= i < |keys| ==> pairs[i] == (keys[i], m[keys[i]])
  {
    if keys == [] then [] else [(keys[0], m[keys[0]])] + PairsOf(keys[1..], m)
  }

  /** The order in which a setter writes: the old keys in order, a new one last. */
  ghost function WriteOrder(before: set<string>, k: string): (keys: seq<string>)
    ensures forall x :: x in keys <==> x in before || x == k
  {
    if k in before then InOrder(before) else InOrder(before) + [k]
  }

  /** The pairs a setter writes for the old raw map and the new entry. */
  ghost function Rewritten(raw: map<string, string>, k: string, v: string): seq<Pair>
  {
    PairsOf(WriteOrder(raw.Keys, k), raw[k := v])
  }

  /** The file after a setter met no fault; a file it cannot parse stays as it is. */
  ghost function SetFile(ws: LineEnds, file: File, name: string, value: string): File
  {
    match Raw(ws, file)
    case None => file
    case Some(raw) => Some(Render(Rewritten(raw, Encode(name), Encode(value))))
  }

  ghost function SetAll(ws: LineEnds, file: File, sets: seq<Pair>): File
    decreases |sets|
  {
    if sets == [] then file else SetAll(ws, SetFile(ws, file, sets[0].0, sets[0].1), sets[1..])
  }

  /** The call ends before it writes anything, because the old content cannot be read. */
  predicate Unreadable(ws: LineEnds, file: File, f: Faults)
  {
    !f.statFails && file.Some? && (f.openReadFails || RawMap(ws, file.value) == None)
  }

  /** Whether the file holds the values of the session or its parameters. */
  datatype Kind = Values | Params

  /** The code for a file that does not open for writing; set_value reports the one for reading. */
  function WriteError(kind: Kind): Error
  {
    if kind == Values then CantReadSessionValues else CantWriteSessionParams
  }

  class SessionFile {
    const ws: LineEnds
    const kind: Kind
    var file: File

    constructor (ws: LineEnds, kind: Kind, file: File)
      ensures this.ws == ws && this.kind == kind && this.file == file
    {
      this.ws, this.kind, this.file := ws, kind, file;
    }

    /** set_value and set_param. A stat error does not stop the call: the old content then counts
        as empty and is overwritten, and the error is still reported at the end. */
    method Set(name: string, value: string, f: Faults) returns (ec: Error)
      modifies this
      ensures !f.statFails && old(file).Some? && (f.openReadFails || ReadRaw(ws, old(file).value) == None) ==>
                ec == CantReadSessionValues && file == old(file)
      ensures f == Faults(false, false, true) && (old(file) == None || ReadRaw(ws, old(file).value).Some?) ==>
                && ec == (if kind == Values then CantReadSessionValues else CantWriteSessionParams)
                && file == old(file)
      ensures f == Faults(true, false, false) && name != "" ==>
                ec == SystemError && View(ws, file) == Some(map[name := TrimEnd(ws, value)])
      ensures Unreadable(ws, old(file), f) ==> ec == CantReadSessionValues && file == old(file)
      ensures !Unreadable(ws, old(file), f) && f.openWriteFails ==> ec == WriteError(kind) && file == old(file)
      ensures !Unreadable(ws, old(file), f) && !f.openWriteFails ==>
                && ec == (if f.statFails then SystemError else Ok)
                && file == SetFile(ws, if f.statFails then None else old(file), name, value)
      ensures f == NO_FAULTS && name != "" && View(ws, old(file)).Some? ==>
                && ec == Ok
                && View(ws, file) == Some(View(ws, old(file)).value[name := TrimEnd(ws, value)])
    {
      var values: map<string, string> := map[];
      if !f.statFails && file.Some? {
        if f.openReadFails {
          return CantReadSessionValues;
        }
        match RawMap(ws, file.value)
        case None => return CantReadSessionValues;
        case Some(raw) => values := raw;
      }
      if f.openWriteFails {
        return WriteError(kind);
      }
      var k, v := Encode(name), Encode(value);
      var out := Rewrite(values, k, v);
      file := Some(out);
      ec := if f.statFails then SystemError else Ok;
      if name != "" && View(ws, old(file)).Some? && f == NO_FAULTS {
        SetUpdatesView(ws, old(file), name, value);
      }
      if name != "" {
        SetUpdatesView(ws, None, name, value);
      }
    }

    /** get_value: the decoded value, "" for a name that is not there. */
    method Get(name: string, f: Faults) returns (value: Option<string>, ec: Error)
      ensures match Loaded(ws, file, f)
              case None => value == None && ec == CantReadSessionValues
              case Some(m) => value == Some(Lookup(m, name)) && ec == if f.statFails then SystemError else Ok
      ensures f.statFails ==> value == Some("") && ec == SystemError
      ensures !f.statFails && file == None ==> value == Some("") && ec == Ok
      ensures !f.statFails && file.Some? && (f.openReadFails || DecodedMap(ws, file.value) == None) ==>
                value == None && ec == CantReadSessionValues
      ensures !f.statFails && file.Some? && !f.openReadFails && DecodedMap(ws, file.value).Some? ==>
                && ec == Ok
                && var m := DecodedMap(ws, file.value).value; value == Some(if name in m then m[name] else "")
    {
      var values: map<string, string> := map[];
      if !f.statFails && file.Some? {
        if f.openReadFails {
          return None, CantReadSessionValues;
        }
        match DecodedMap(ws, file.value)
        case None => return None, CantReadSessionValues;
        case Some(m) => values := m;
      }
      return Some(Lookup(values, name)), if f.statFails then SystemError else Ok;
    }
  }

  /** The writing loop of the setters: one pass over the map in key order, changing the entry
      that matches in place, and appending the new one if none did. */
  method Rewrite(raw: map<string, string>, k: string, v: string) returns (out: string)
    ensures out == Render(Rewritten(raw, k, v))
  {
    var values, found, todo := raw, false, raw.Keys;
    out := "";
    ghost var done := 0;
    WriteBegin(raw, k, v);
    while todo != {}
      invariant Writing(raw, k, v, values, found, todo, done, out)
      decreases todo
    {
      values, found, todo, out := WriteEntry(raw, k, v, values, found, todo, done, out);
      done := done + 1;
    }
    WriteEnd(raw, k, v, values, found, done, out);
    if !found {
      out := out + k + "=" + v + "\n";
    }
  }

  /** One round of the loop: the entry with the least key that is left. */
  method WriteEntry(ghost raw: map<string, string>, k: string, v: string, values: map<string, string>, found: bool,
                    todo: set<string>, ghost done: nat, out: string)
    returns (values': map<string, string>, found': bool, todo': set<string>, out': string)
    requires Writing(raw, k, v, values, found, todo, done, out) && todo != {}
    ensures Writing(raw, k, v, values', found', todo', done + 1, out') && todo' < todo
  {
    LeastExists(todo);
    var key :| IsLeast(todo, key);
    WriteStep(raw, k, v, values, found, todo, done, out, key);
    values', found' := values, found;
    if key == k {
      values' := values'[key := v];
      found' := true;
    }
    out' := out + key + "=" + values'[key] + "\n";
    todo' := todo - {key};
  }

  lemma WriteBegin(raw: map<string, string>, k: string, v: string)
    ensures Writing(raw, k, v, raw, false, raw.Keys, 0, "")
  {
    assert Rewritten(raw, k, v)[..0] == [];
  }

  /** The first done pairs are written, todo has the keys of the old ones that are not, and the entry
      of k has been changed in values if its turn has come. */
  ghost predicate Writing(raw: map<string, string>, k: string, v: string,
                          values: map<string, string>, found: bool, todo: set<string>, done: nat, out: string)
  {
    && todo <= raw.Keys && done <= |InOrder(raw.Keys)| <= |Rewritten(raw, k, v)|
    && InOrder(todo) == InOrder(raw.Keys)[done..]
    && out == Render(Rewritten(raw, k, v)[..done])
    && (found <==> k in raw && k !in todo)
    && values == if found then raw[k := v] else raw
  }

  lemma WriteStep(raw: map<string, string>, k: string, v: string, values: map<string, string>,
                  found: bool, todo: set<string>, done: nat, out: string, key: string)
    requires Writing(raw, k, v, values, found, todo, done, out) && IsLeast(todo, key)
    ensures key in values
    ensures var values' := if key == k then values[key := v] else values;
            Writing(raw, k, v, values', found || key == k, todo - {key}, done + 1,
                    out + key + "=" + values'[key] + "\n")
  {
    InOrderStep(todo, key);
    var order := InOrder(raw.Keys);
    assert order[done..][0] == key && order[done..][1..] == order[done + 1..];
    RenderSnoc(Rewritten(raw, k, v), done);
  }

  lemma WriteEnd(raw: map<string, string>, k: string, v: string, values: map<string, string>,
                 found: bool, done: nat, out: string)
    requires Writing(raw, k, v, values, found, {}, done, out)
    ensures Render(Rewritten(raw, k, v)) == if found then out else out + k + "=" + v + "\n"
  {
    assert InOrder({}) == [];
    assert done == |InOrder(raw.Keys)|;
    if k in raw { OldPairs(raw, k, v); } else { NewPair(raw, k, v); }
  }

  lemma OldPairs(raw: map<string, string>, k: string, v: string)
    requires k in raw
    ensures Rewritten(raw, k, v)[..|InOrder(raw.Keys)|] == Rewritten(raw, k, v)
  {
    assert WriteOrder(raw.Keys, k) == InOrder(raw.Keys);
  }

  lemma NewPair(raw: map<string, string>, k: string, v: string)
    requires k !in raw
    ensures var pairs := Rewritten(raw, k, v);
            |InOrder(raw.Keys)| <= |pairs|
            && Render(pairs) == Render(pairs[..|InOrder(raw.Keys)|]) + k + "=" + v + "\n"
  {
    LastPair(raw, k, v);
    var pairs, n := Rewritten(raw, k, v), |InOrder(raw.Keys)|;
    assert pairs[..n + 1] == pairs;
    RenderSnoc(pairs, n);
  }

  lemma LastPair(raw: map<string, string>, k: string, v: string)
    requires k !in raw
    ensures var n := |InOrder(raw.Keys)|; |Rewritten(raw, k, v)| == n + 1 && Rewritten(raw, k, v)[n] == (k, v)
  {
    assert WriteOrder(raw.Keys, k) == InOrder(raw.Keys) + [k];
  }

  lemma {:induction false} RenderSnoc(pairs: seq<Pair>, i: nat)
    requires i < |pairs|
    ensures Render(pairs[..i + 1]) == Render(pairs[..i]) + pairs[i].0 + "=" + pairs[i].1 + "\n"
  {
    if i == 0 {
      assert pairs[..1][1..] == [];
    } else {
      RenderSnoc(pairs[1..], i - 1);
      assert pairs[..i + 1][1..] == pairs[1..][..i] && pairs[..i][1..] == pairs[1..][..i - 1];
      assert pairs[1..][i - 1] == pairs[i];
    }
  }

  // ---- raw pairs, decoded pairs and the maps they give ---------------------------------

  lemma {:induction false} ToMapPair(pairs: seq<Pair>, k: string)
    ensures k in ToMap(pairs) <==> exists p :: p in pairs && p.0 == k
    ensures k in ToMap(pairs) ==> (k, ToMap(pairs)[k]) in pairs
  {
    if pairs != [] {
      ToMapPair(pairs[1..], k);
      assert forall p :: p in pairs <==> p == pairs[0] || p in pairs[1..];
    }
  }

  lemma ToMapPairsOf(keys: seq<string>, m: map<string, string>)
    requires forall k :: k in keys <==> k in m
    ensures ToMap(PairsOf(keys, m)) == m
  {
    var pairs := PairsOf(keys, m);
    forall k
      ensures k in ToMap(pairs) <==> k in m
      ensures k in m ==> ToMap(pairs)[k] == m[k]
    {
      ToMapPair(pairs, k);
      if k in m {
        var i :| 0 <= i < |keys| && keys[i] == k;
        assert pairs[i] in pairs;
      }
    }
  }

  lemma {:induction false} TrimmedRaw(ws: LineEnds, raw: map<string, string>, k: string, v: string)
    requires forall x :: x in raw ==> RawPair(ws, (x, raw[x]))
    requires Writable((k, v))
    ensures forall p :: p in Rewritten(raw, k, v) ==> Writable(p)
    ensures ToMap(TrimValues(ws, Rewritten(raw, k, v))) == raw[k := TrimEnd(ws, v)]
  {
    var keys, trimmed := WriteOrder(raw.Keys, k), raw[k := TrimEnd(ws, v)];
    var pairs := PairsOf(keys, raw[k := v]);
    forall i | 0 <= i < |keys|
      ensures Writable(pairs[i]) && TrimEnd(ws, pairs[i].1) == trimmed[keys[i]]
    {
      assert keys[i] in keys;
      assert keys[i] != k ==> RawPair(ws, (keys[i], raw[keys[i]]));
    }
    assert TrimValues(ws, pairs) == PairsOf(keys, trimmed);
    ToMapPairsOf(keys, trimmed);
  }

  lemma RawMapPairs(ws: LineEnds, file: File)
    requires Raw(ws, file).Some?
    ensures var raw := Raw(ws, file).value; forall k :: k in raw ==> RawPair(ws, (k, raw[k]))
  {
    if file.Some? {
      ReadRawPairs(ws, file.value);
      var pairs := ReadRaw(ws, file.value).value;
      forall k | k in ToMap(pairs)
        ensures RawPair(ws, (k, ToMap(pairs)[k]))
      {
        ToMapPair(pairs, k);
      }
    }
  }

  /** A setter changes one entry of the raw map and keeps the encoded bytes of all others. */
  lemma SetUpdatesRaw(ws: LineEnds, file: File, name: string, value: string)
    requires Raw(ws, file).Some? && name != ""
    ensures Raw(ws, SetFile(ws, file, name, value))
         == Some(Raw(ws, file).value[Encode(name) := Encode(TrimEnd(ws, value))])
  {
    var raw := Raw(ws, file).value;
    RawMapPairs(ws, file);
    EncodeEscaped(name);
    EncodeEscaped(value);
    TrimEncode(ws, value);
    TrimmedRaw(ws, raw, Encode(name), Encode(value));
    ReadRender(ws, Rewritten(raw, Encode(name), Encode(value)));
  }

  predicate Decodable(p: Pair) { Decode(p.0).Some? && Decode(p.1).Some? }

  /** The decoded map is the raw map read name by name: n is there exactly when Encode(n) is. */
  lemma {:induction false} DecodedLookup(pairs: seq<Pair>)
    requires forall p :: p in pairs ==> Escaped(p.0) && '\n' !in p.0
    ensures DecodePairs(pairs).Some? <==> forall p :: p in pairs ==> Decodable(p)
    ensures DecodePairs(pairs).Some? ==>
              var m := ToMap(DecodePairs(pairs).value);
              && (forall n :: n in m <==> Encode(n) in ToMap(pairs))
              && (forall n :: n in m ==> Decode(ToMap(pairs)[Encode(n)]) == Some(m[n]))
  {
    if pairs != [] {
      var p := pairs[0];
      assert forall q :: q in pairs <==> q == p || q in pairs[1..];
      DecodedLookup(pairs[1..]);
      if DecodePairs(pairs).Some? {
        EncodeDecode(p.0);
        forall n ensures Encode(n) == p.0 <==> n == Decode(p.0).value { DecodeEncode(n); }
      }
    }
  }

  /** Seen from the maps: a file is readable decoded when it is readable raw and all it holds
      decodes, and then the two maps agree. */
  lemma ViewOfRaw(ws: LineEnds, file: File)
    ensures View(ws, file).Some? ==>
              && Raw(ws, file).Some?
              && var m, raw := View(ws, file).value, Raw(ws, file).value;
              && (forall n :: n in m <==> Encode(n) in raw)
              && (forall n :: n in m ==> Decode(raw[Encode(n)]) == Some(m[n]))
  {
    if View(ws, file).Some? && file.Some? {
      ReadRawPairs(ws, file.value);
      DecodedLookup(ReadRaw(ws, file.value).value);
    }
  }

  /** The old keys in order stand in front. */
  lemma RewrittenKeys(raw: map<string, string>, k: string, v: string, i: nat)
    requires i < |InOrder(raw.Keys)|
    ensures i < |Rewritten(raw, k, v)| && InOrder(raw.Keys)[i] in raw
    ensures Rewritten(raw, k, v)[i] == (InOrder(raw.Keys)[i], raw[k := v][InOrder(raw.Keys)[i]])
  {
    assert InOrder(raw.Keys)[i] in InOrder(raw.Keys);
  }

  /** What a setter writes: the old entries sorted by key, with the value of k replaced ... */
  lemma RewrittenPairs(raw: map<string, string>, k: string, v: string, i: nat, j: nat)
    requires i < j < |raw|
    ensures |Rewritten(raw, k, v)| >= |raw| && Less(Rewritten(raw, k, v)[i].0, Rewritten(raw, k, v)[j].0)
    ensures var p := Rewritten(raw, k, v)[i];
            p.0 in raw && p.1 == if p.0 == k then v else raw[p.0]
  {
    InOrderAscends(raw.Keys);
    RewrittenKeys(raw, k, v, i);
    RewrittenKeys(raw, k, v, j);
  }

  /** ... all of them, and k itself last if it is new. */
  lemma RewrittenAll(raw: map<string, string>, k: string, v: string)
    ensures |Rewritten(raw, k, v)| == if k in raw then |raw| else |raw| + 1
    ensures k !in raw ==> Rewritten(raw, k, v)[|raw|] == (k, v)
    ensures forall x :: x in raw ==> (x, raw[k := v][x]) in Rewritten(raw, k, v)
  {
    var pairs := Rewritten(raw, k, v);
    InOrderAscends(raw.Keys);
    if k !in raw { LastPair(raw, k, v); }
    forall x | x in raw ensures (x, raw[k := v][x]) in pairs {
      assert x in InOrder(raw.Keys);
      var i :| 0 <= i < |InOrder(raw.Keys)| && InOrder(raw.Keys)[i] == x;
      RewrittenKeys(raw, k, v, i);
      assert pairs[i] in pairs;
    }
  }

  /** The pairs read back after a write are those of the updated raw map. */
  lemma ReadBack(ws: LineEnds, raw: map<string, string>, k: string, v: string)
    requires forall x :: x in raw ==> RawPair(ws, (x, raw[x]))
    requires Writable((k, v))
    ensures ReadRaw(ws, Render(Rewritten(raw, k, v))) == Some(TrimValues(ws, Rewritten(raw, k, v)))
    ensures forall p :: p in TrimValues(ws, Rewritten(raw, k, v)) ==>
              p.0 in raw[k := TrimEnd(ws, v)] && p.1 == raw[k := TrimEnd(ws, v)][p.0]
  {
    TrimmedRaw(ws, raw, k, v);
    ReadRender(ws, Rewritten(raw, k, v));
    forall p | p in TrimValues(ws, Rewritten(raw, k, v))
      ensures p.0 in raw[k := TrimEnd(ws, v)] && p.1 == raw[k := TrimEnd(ws, v)][p.0]
    {
      TrimmedPair(ws, raw, k, v, p);
    }
  }

  lemma {:induction false} TrimmedPair(ws: LineEnds, raw: map<string, string>, k: string, v: string, p: Pair)
    requires forall x :: x in raw ==> RawPair(ws, (x, raw[x]))
    requires p in TrimValues(ws, Rewritten(raw, k, v))
    ensures p.0 in raw[k := TrimEnd(ws, v)] && p.1 == raw[k := TrimEnd(ws, v)][p.0]
  {
    var keys := WriteOrder(raw.Keys, k);
    var i :| 0 <= i < |keys| && p == TrimValues(ws, Rewritten(raw, k, v))[i];
    assert keys[i] in keys && p.0 == keys[i];
    assert p.0 != k ==> RawPair(ws, (p.0, raw[p.0]));
  }

  lemma WrittenDecodable(ws: LineEnds, file: File, name: string, value: string)
    requires View(ws, file).Some? && name != ""
    ensures View(ws, SetFile(ws, file, name, value)).Some?
  {
    ViewOfRaw(ws, file);
    RawMapPairs(ws, file);
    var raw, k, v := Raw(ws, file).value, Encode(name), Encode(value);
    EncodeEscaped(name);
    EncodeEscaped(value);
    ReadBack(ws, raw, k, v);
    var read := TrimValues(ws, Rewritten(raw, k, v));
    forall p | p in read
      ensures Escaped(p.0) && '\n' !in p.0 && Decodable(p)
    {
      if p.0 == k {
        EncodedDecodable(ws, name, value);
      } else {
        assert RawPair(ws, (p.0, raw[p.0]));
        RawDecodable(ws, file, p.0);
      }
    }
    DecodedLookup(read);
  }

  lemma EncodedDecodable(ws: LineEnds, name: string, value: string)
    ensures Decodable((Encode(name), TrimEnd(ws, Encode(value))))
  {
    TrimEncode(ws, value);
    DecodeEncode(name);
    DecodeEncode(TrimEnd(ws, value));
  }

  lemma RawDecodable(ws: LineEnds, file: File, k: string)
    requires View(ws, file).Some? && Raw(ws, file).Some? && k in Raw(ws, file).value
    ensures Decodable((k, Raw(ws, file).value[k]))
  {
    ReadRawPairs(ws, file.value);
    var pairs := ReadRaw(ws, file.value).value;
    DecodedLookup(pairs);
    ToMapPair(pairs, k);
  }

  // ---- the store as a plain map --------------------------------------------------------

  /** set_value is an update of the map that get_value reads; the value loses trailing blanks. */
  lemma SetUpdatesView(ws: LineEnds, file: File, name: string, value: string)
    requires View(ws, file).Some? && name != ""
    ensures View(ws, SetFile(ws, file, name, value)) == Some(View(ws, file).value[name := TrimEnd(ws, value)])
  {
    var after := SetFile(ws, file, name, value);
    WrittenDecodable(ws, file, name, value);
    var m, goal := View(ws, after).value, View(ws, file).value[name := TrimEnd(ws, value)];
    forall n
      ensures n in m <==> n in goal
      ensures n in m ==> m[n] == goal[n]
    {
      SetUpdatesName(ws, file, name, value, n);
    }
    assert m == goal;
  }

  lemma SetUpdatesName(ws: LineEnds, file: File, name: string, value: string, n: string)
    requires View(ws, file).Some? && View(ws, SetFile(ws, file, name, value)).Some? && name != ""
    ensures var m := View(ws, SetFile(ws, file, name, value)).value;
            var goal := View(ws, file).value[name := TrimEnd(ws, value)];
            (n in m <==> n in goal) && (n in m ==> m[n] == goal[n])
  {
    ViewOfRaw(ws, file);
    SetUpdatesRaw(ws, file, name, value);
    ViewOfRaw(ws, SetFile(ws, file, name, value));
    DecodeEncode(TrimEnd(ws, value));
    if Encode(n) == Encode(name) { EncodeInjective(n, name); }
  }

  /** What get_value(name) returns on a file, None for an error. */
  function GetFile(ws: LineEnds, file: File, name: string): Option<string>
  {
    match View(ws, file) case None => None case Some(m) => Some(Lookup(m, name))
  }

  /** After any sequence of set_value calls the store is the old map overlaid with the last value
      of each name, trailing blanks removed. */
  lemma {:induction false} SetsRefineMap(ws: LineEnds, file: File, sets: seq<Pair>)
    requires View(ws, file).Some?
    requires forall s :: s in sets ==> s.0 != ""
    ensures View(ws, SetAll(ws, file, sets)) == Some(View(ws, file).value + ToMap(TrimValues(ws, sets)))
    decreases |sets|
  {
    if sets != [] {
      var next := SetFile(ws, file, sets[0].0, sets[0].1);
      assert sets[0] in sets;
      SetUpdatesView(ws, file, sets[0].0, sets[0].1);
      SetsRefineMap(ws, next, sets[1..]);
      OverlayFirst(View(ws, file).value, TrimValues(ws, sets));
      assert TrimValues(ws, sets)[1..] == TrimValues(ws, sets[1..]);
    } else {
      assert View(ws, file).value + map[] == View(ws, file).value;
    }
  }

  lemma OverlayFirst(m: map<string, string>, pairs: seq<Pair>)
    requires pairs != []
    ensures m + ToMap(pairs) == m[pairs[0].0 := pairs[0].1] + ToMap(pairs[1..])
  {
  }

  lemma LastWriteWins(ws: LineEnds, sets: seq<Pair>, name: string)
    requires forall s :: s in sets ==> s.0 != ""
    ensures GetFile(ws, SetAll(ws, None, sets), name) == Some(Lookup(ToMap(TrimValues(ws, sets)), name))
  {
    SetsRefineMap(ws, None, sets);
    assert map[] + ToMap(TrimValues(ws, sets)) == ToMap(TrimValues(ws, sets));
  }

  /** Writing an empty name leaves a file that neither getters nor setters can read again. */
  lemma EmptyNameBreaks(ws: LineEnds, file: File, value: string)
    requires Raw(ws, file).Some?
    ensures Raw(ws, SetFile(ws, file, "", value)) == None
  {
    var raw := Raw(ws, file).value;
    RawMapPairs(ws, file);
    EncodeEscaped(value);
    EmptyKeyUnreadable(ws, raw, Encode(value));
  }

  lemma EmptyKeyUnreadable(ws: LineEnds, raw: map<string, string>, v: string)
    requires forall x :: x in raw ==> RawPair(ws, (x, raw[x]))
    requires '\n' !in v
    ensures ReadRaw(ws, Render(Rewritten(raw, "", v))) == None
  {
    forall x | x in raw ensures x != "" { assert RawPair(ws, (x, raw[x])); }
    LastPair(raw, "", v);
    var pairs := Rewritten(raw, "", v)[..|InOrder(raw.Keys)|];
    OldPairsWritable(ws, raw, v, pairs);
    assert Rewritten(raw, "", v) == pairs + [("", v)] + [];
    EmptyNameUnreadable(ws, pairs, v, []);
  }

  lemma OldPairsWritable(ws: LineEnds, raw: map<string, string>, v: string, pairs: seq<Pair>)
    requires forall x :: x in raw ==> RawPair(ws, (x, raw[x]))
    requires "" !in raw && |pairs| == |InOrder(raw.Keys)| && pairs <= Rewritten(raw, "", v)
    ensures forall p :: p in pairs ==> Writable(p)
  {
    forall i | 0 <= i < |pairs|
      ensures Writable(pairs[i])
    {
      var k := InOrder(raw.Keys)[i];
      assert k in InOrder(raw.Keys) && pairs[i] == (k, raw[k]);
      assert RawPair(ws, (k, raw[k]));
    }
  }

  /** A session stays readable exactly as long as no empty name is set. */
  lemma {:induction false} ReadableExactly(ws: LineEnds, file: File, sets: seq<Pair>)
    requires View(ws, file).Some?
    ensures View(ws, SetAll(ws, file, sets)).Some? <==> forall s :: s in sets ==> s.0 != ""
    decreases |sets|
  {
    if sets != [] {
      assert forall s :: s in sets <==> s == sets[0] || s in sets[1..];
      var next := SetFile(ws, file, sets[0].0, sets[0].1);
      if sets[0].0 == "" {
        ViewOfRaw(ws, file);
        EmptyNameBreaks(ws, file, sets[0].1);
        StaysBroken(ws, next, sets[1..]);
      } else {
        SetUpdatesView(ws, file, sets[0].0, sets[0].1);
        ReadableExactly(ws, next, sets[1..]);
      }
    }
  }

  lemma {:induction false} StaysBroken(ws: LineEnds, file: File, sets: seq<Pair>)
    requires Raw(ws, file) == None
    ensures View(ws, SetAll(ws, file, sets)) == None
    decreases |sets|
  {
    if sets == [] { ViewOfRaw(ws, file); } else { StaysBroken(ws, file, sets[1..]); }
  }

  /** get_value returns what set_value was given exactly for a non-empty name and a value that does
      not end in a character the reader trims. */
  lemma SetGetExactly(ws: LineEnds, file: File, name: string, value: string)
    requires View(ws, file).Some?
    ensures GetFile(ws, SetFile(ws, file, name, value), name) == Some(value)
       <==> name != "" && (value == "" || value[|value| - 1] !in ws)
  {
    if name == "" {
      ViewOfRaw(ws, file);
      EmptyNameBreaks(ws, file, value);
      ViewOfRaw(ws, SetFile(ws, file, name, value));
    } else {
      SetUpdatesView(ws, file, name, value);
      if value != "" && value[|value| - 1] in ws { TrimEndIdempotent(ws, value[..|value| - 1]); }
    }
  }
}
