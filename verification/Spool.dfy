/** The text of the extractor cache file, token by token (section 2 of RFC 8259): how the cache
    spools it and how the streaming decoder reads it (internal/engine/cache.go). A fact's JSON
    text is one token. */
module Spool {
  import opened Wrappers

  /** A fact as it is stored: its name, and the JSON text of everything else it says. */
  datatype StoredFact = StoredFact(name: string, rest: string)

  datatype Tok =
    | LBrace | RBrace | LBracket | RBracket | Comma | Colon
    | Str(text: string) | Null | Scalar(literal: string) | FactText(fact: StoredFact)

  type Tokens = seq<Tok>

  predicate Atom(t: Tok) {
    t.Str? || t.Null? || t.Scalar? || t.FactText?
  }

  /** The decoder's `Token` where a key is due, and the colon after it. `first`: no member of
      this object has been read. The result is the key and what follows the colon. */
  function NextKey(ts: Tokens, first: bool): (r: Option<(string, Tokens)>)
    ensures r.Some? ==> |r.value.1| < |ts| && r.value.1 == ts[|ts| - |r.value.1|..]
  {
    var s := if first then ts else if ts != [] && ts[0].Comma? then ts[1..] else [];
    if |s| < 2 || !s[0].Str? || !s[1].Colon? then None else Some((s[0].text, s[2..]))
  }

  /** What follows the first complete value. */
  function SkipValue(ts: Tokens): (r: Option<Tokens>)
    ensures r.Some? ==> |r.value| < |ts| && r.value == ts[|ts| - |r.value|..]
    decreases |ts|, 0
  {
    if ts == [] then None
    else if Atom(ts[0]) then Some(ts[1..])
    else if ts[0].LBracket? then
      if |ts| > 1 && ts[1].RBracket? then Some(ts[2..]) else SkipElements(ts[1..])
    else if ts[0].LBrace? then
      if |ts| > 1 && ts[1].RBrace? then Some(ts[2..]) else SkipMembers(ts[1..])
    else None
  }

  function SkipElements(ts: Tokens): (r: Option<Tokens>)
    ensures r.Some? ==> |r.value| < |ts| && r.value == ts[|ts| - |r.value|..]
    decreases |ts|, 1
  {
    var v := SkipValue(ts);
    if v.None? then None else AfterElement(v.value)
  }

  /** After an element, the array ends or another element follows. */
  function AfterElement(v: Tokens): (r: Option<Tokens>)
    ensures r.Some? ==> |r.value| < |v| && r.value == v[|v| - |r.value|..]
    decreases |v|, 1
  {
    if v == [] then None
    else if v[0].RBracket? then Some(v[1..])
    else if v[0].Comma? then SkipElements(v[1..])
    else None
  }

  function SkipMembers(ts: Tokens): (r: Option<Tokens>)
    ensures r.Some? ==> |r.value| < |ts| && r.value == ts[|ts| - |r.value|..]
    decreases |ts|, 1
  {
    var k := NextKey(ts, true);
    if k.None? then None
    else
      var v := SkipValue(k.value.1);
      if v.None? then None else AfterMember(v.value)
  }

  /** After a member, the object ends or another member follows. */
  function AfterMember(v: Tokens): (r: Option<Tokens>)
    ensures r.Some? ==> |r.value| < |v| && r.value == v[|v| - |r.value|..]
    decreases |v|, 1
  {
    if v == [] then None
    else if v[0].RBrace? then Some(v[1..])
    else if v[0].Comma? then SkipMembers(v[1..])
    else None
  }

  predicate Complete(raw: Tokens) {
    SkipValue(raw) == Some([])
  }

  // ---- Reading ----

  /** The decoder's `More`: another member follows, unless a closing token or the end does. */
  predicate More(ts: Tokens) {
    ts != [] && !ts[0].RBrace? && !ts[0].RBracket?
  }

  /** A value decoded into a string: null leaves the empty string. */
  function DecodeString(ts: Tokens): (r: Option<(string, Tokens)>)
    ensures r.Some? ==> |r.value.1| < |ts|
  {
    if ts == [] then None
    else if ts[0].Str? then Some((ts[0].text, ts[1..]))
    else if ts[0].Null? then Some(("", ts[1..]))
    else None
  }

  type Entries = map<string, Tokens>

  /** The members of the entries object from here to its end. */
  function DecodeEntries(ts: Tokens, first: bool, prev: Entries): (r: Option<(Entries, Tokens)>)
    ensures r.Some? ==> |r.value.1| < |ts|
    decreases |ts|
  {
    if !More(ts) then
      if ts == [] || ts[0].RBracket? then None else Some((prev, ts[1..]))
    else
      var k := NextKey(ts, first);
      if k.None? then None
      else
        var v := SkipValue(k.value.1);
        if v.None? then None
        else DecodeEntries(v.value, false, prev[k.value.0 := k.value.1[..|k.value.1| - |v.value|]])
  }

  datatype Stamps = Stamps(version: string, build: string)

  /** Where the decoder is among the members of the file's object. */
  datatype Progress = Progress(first: bool, sawVersion: bool, sawBuild: bool, prev: Entries)

  /** One member. The stamps must have been seen, and matched, before the entries. */
  function DecodeField(ts: Tokens, p: Progress, own: Stamps): (r: Option<(Progress, Tokens)>)
    ensures r.Some? ==> |r.value.1| < |ts|
  {
    var k := NextKey(ts, p.first);
    if k.None? then None
    else
      var (key, v) := k.value;
      if key == "version" then
        var s := DecodeString(v);
        if s.None? || s.value.0 != own.version then None
        else Some((p.(first := false, sawVersion := true), s.value.1))
      else if key == "build" then
        var s := DecodeString(v);
        if s.None? || s.value.0 != own.build then None
        else Some((p.(first := false, sawBuild := true), s.value.1))
      else if key == "entries" then
        if !p.sawVersion || !p.sawBuild || v == [] then None
        else if v[0].Null? then Some((p.(first := false), v[1..]))
        else if !v[0].LBrace? then None
        else
          var e := DecodeEntries(v[1..], true, p.prev);
          if e.None? then None else Some((p.(first := false, prev := e.value.0), e.value.1))
      else
        var s := SkipValue(v);
        if s.None? then None else Some((p.(first := false), s.value))
  }

  function DecodeFields(ts: Tokens, p: Progress, own: Stamps): Option<Entries>
    decreases |ts|
  {
    if !More(ts) then Some(p.prev)
    else
      var f := DecodeField(ts, p, own);
      if f.None? then None else DecodeFields(f.value.1, f.value.0, own)
  }

  const START: Progress := Progress(true, false, false, map[])

  /** The whole file; None is a cold cache. */
  function Decode(ts: Tokens, own: Stamps): Option<Entries> {
    if ts == [] || !ts[0].LBrace? then None else DecodeFields(ts[1..], START, own)
  }

  /** What a run starts from: a file that cannot be reused serves nothing. */
  function Loaded(file: Option<Tokens>, own: Stamps): Entries {
    if file.None? || Decode(file.value, own).None? then map[] else Decode(file.value, own).value
  }

  // ---- Writing ----

  datatype Entry = Entry(key: string, raw: Tokens)

  function Header(own: Stamps): Tokens {
    [LBrace, Str("version"), Colon, Str(own.version), Comma, Str("build"), Colon, Str(own.build),
     Comma, Str("entries"), Colon, LBrace]
  }

  function EntryText(e: Entry): Tokens {
    [Str(e.key), Colon] + e.raw
  }

  /** The entries in the order they were written. `first`: no entry comes before them. */
  function EntriesText(log: seq<Entry>, first: bool): Tokens {
    if log == [] then []
    else (if first then EntryText(log[0]) else [Comma] + EntryText(log[0])) + EntriesText(log[1..], false)
  }

  function File(own: Stamps, log: seq<Entry>): Tokens {
    Header(own) + (EntriesText(log, true) + [RBrace, RBrace])
  }

  /** What the entries mean: the last one written under a key. */
  function Stored(log: seq<Entry>, before: Entries): Entries {
    if log == [] then before else Stored(log[1..], before[log[0].key := log[0].raw])
  }

  ghost predicate AllComplete(log: seq<Entry>) {
    forall i :: 0 <= i < |log| ==> Complete(log[i].raw)
  }

  /** The array of facts that `put` writes. */
  function FactsText(ff: seq<StoredFact>): Tokens {
    [LBracket] + Listed(ff) + [RBracket]
  }

  function Listed(ff: seq<StoredFact>): Tokens {
    if ff == [] then []
    else if |ff| == 1 then [FactText(ff[0])]
    else [FactText(ff[0]), Comma] + Listed(ff[1..])
  }

  /** The facts of an array of facts. */
  function Unmarshal(raw: Tokens): Option<seq<StoredFact>> {
    if raw == [Null] then Some([])
    else if |raw| < 2 || !raw[0].LBracket? then None
    else if raw == [LBracket, RBracket] then Some([])
    else UnmarshalElements(raw[1..])
  }

  function UnmarshalElements(ts: Tokens): Option<seq<StoredFact>>
    decreases |ts|
  {
    if |ts| < 2 || !ts[0].FactText? then None
    else if ts[1..] == [RBracket] then Some([ts[0].fact])
    else if !ts[1].Comma? then None
    else
      var rest := UnmarshalElements(ts[2..]);
      if rest.None? then None else Some([ts[0].fact] + rest.value)
  }
}
