/** The extractor cache (internal/engine/cache.go): entries of the previous run are served from
    memory, entries of this run are written through to a spool that save publishes. */
module Cache {
  import opened Wrappers
  import opened Spool
  import opened SpoolLaws

  /** The file at the cache's path. */
  class CacheFile {
    var content: Option<Tokens>

    constructor (c: Option<Tokens>)
      ensures content == c
    {
      content := c;
    }
  }

  // ---- Streaming decode ----

  method DecodeEntriesObject(start: Tokens, before: Entries) returns (r: Option<(Entries, Tokens)>)
    ensures r == DecodeEntries(start, true, before)
  {
    var ts, first, prev := start, true, before;
    while More(ts)
      invariant DecodeEntries(ts, first, prev) == DecodeEntries(start, true, before)
      decreases |ts|
    {
      var k := NextKey(ts, first);
      if k.None? {
        return None;
      }
      var (name, v) := k.value;
      var rest := SkipValue(v);
      if rest.None? {
        return None;
      }
      prev := prev[name := v[..|v| - |rest.value|]];
      ts, first := rest.value, false;
    }
    if ts == [] || ts[0].RBracket? {
      return None;
    }
    return Some((prev, ts[1..]));
  }

  method DecodeFile(file: Tokens, own: Stamps) returns (r: Option<Entries>)
    ensures r == Decode(file, own)
  {
    if file == [] || !file[0].LBrace? {
      return None;
    }
    var ts, first, sawVersion, sawBuild, prev: Entries := file[1..], true, false, false, map[];
    while More(ts)
      invariant DecodeFields(ts, Progress(first, sawVersion, sawBuild, prev), own) == Decode(file, own)
      decreases |ts|
    {
      var k := NextKey(ts, first);
      if k.None? {
        return None;
      }
      var (key, v) := k.value;
      if key == "version" {
        var s := DecodeString(v);
        if s.None? || s.value.0 != own.version {
          return None;
        }
        sawVersion, ts := true, s.value.1;
      } else if key == "build" {
        var s := DecodeString(v);
        if s.None? || s.value.0 != own.build {
          return None;
        }
        sawBuild, ts := true, s.value.1;
      } else if key == "entries" {
        if !sawVersion || !sawBuild || v == [] {
          return None;
        }
        if v[0].Null? {
          ts := v[1..];
        } else if !v[0].LBrace? {
          return None;
        } else {
          var e := DecodeEntriesObject(v[1..], prev);
          if e.None? {
            return None;
          }
          prev, ts := e.value.0, e.value.1;
        }
      } else {
        var s := SkipValue(v);
        if s.None? {
          return None;
        }
        ts := s.value;
      }
      first := false;
    }
    return Some(prev);
  }

  // ---- The cache ----

  /** The facts under a key, if there are any that can be decoded. */
  function Peeked(prev: Entries, key: string): Option<seq<StoredFact>> {
    if key in prev then Unmarshal(prev[key]) else None
  }

  /** What comes before an entry's value when `n` entries came before it. */
  function Lead(key: string, n: nat): Tokens {
    if n > 0 then [Comma, Str(key), Colon] else [Str(key), Colon]
  }

  class ExtractorCache {
    const own: Stamps
    const dest: CacheFile
    var prev: Entries
    var hits: nat
    var noPersist: bool
    var spool: Tokens
    var entries: nat
    var failed: bool
    var closed: bool

    /** Every entry begun this run, in order. */
    ghost var log: seq<Entry>

    /** How many writes, encodings and file operations have failed. */
    ghost var faults: nat

    ghost predicate Valid()
      reads this
    {
      && AllComplete(log)
      && (failed ==> faults > 0)
      && (!noPersist && !failed && !closed ==> spool == Header(own) + EntriesText(log, true) && entries == |log|)
    }

    predicate Writes()
      reads this
    {
      !noPersist && !closed
    }

    constructor (file: CacheFile, persist: bool, stamps: Stamps)
      ensures Valid() && own == stamps && dest == file && log == [] && !closed && hits == 0
      ensures prev == Loaded(file.content, stamps)
      ensures noPersist <==> !persist || faults > 0
    {
      var decoded := None;
      if file.content.Some? {
        decoded := DecodeFile(file.content.value, stamps);
      }
      var canSpool := *;
      own, dest, hits, entries, failed, closed, log := stamps, file, 0, 0, false, false, [];
      faults := if persist && !canSpool then 1 else 0;
      noPersist := !persist || !canSpool;
      spool := Header(stamps);
      prev := if decoded.Some? then decoded.value else map[];
      new;
      assert spool + EntriesText(log, true) == spool;
    }

    /** Any call may fail. */
    method Try() returns (ok: bool)
      modifies this`faults
      ensures faults == if ok then old(faults) else old(faults) + 1
    {
      ok := *;
      if !ok {
        faults := faults + 1;
      }
    }

    /** Failed by a fault, and for good. */
    twostate predicate FailsByFault()
      reads this
    {
      old(faults) <= faults && (old(failed) ==> failed) && (failed && !old(failed) ==> old(faults) < faults)
    }

    /** A buffered write. After one fails nothing more is written. */
    method Emit(ts: Tokens)
      modifies this`spool, this`failed, this`faults
      ensures FailsByFault()
      ensures !failed ==> spool == old(spool) + ts
    {
      var ok := Try();
      if failed || !ok {
        failed := true;
      } else {
        spool := spool + ts;
      }
    }

    method BeginEntry(key: string) returns (ok: bool)
      modifies this`spool, this`failed, this`entries, this`faults
      ensures FailsByFault()
      ensures ok <==> Writes() && !old(failed)
      ensures !ok ==> spool == old(spool) && entries == old(entries) && failed == old(failed)
      ensures ok && !failed ==>
        spool == old(spool) + Lead(key, old(entries)) && entries == old(entries) + 1
    {
      if noPersist || closed || failed {
        return false;
      }
      ok := true;
      if entries > 0 {
        Emit([Comma]);
      }
      entries := entries + 1;
      Emit([Str(key)]);
      Emit([Colon]);
    }

    method WriteEntry(key: string, raw: Tokens)
      requires Valid() && Complete(raw)
      modifies this`spool, this`failed, this`entries, this`log, this`faults
      ensures Valid() && faults >= old(faults)
      ensures log == if Writes() then old(log) + [Entry(key, raw)] else old(log)
    {
      hide EntriesText, Complete, AllComplete;
      var ok := BeginEntry(key);
      if ok {
        Emit(raw);
      }
      if Writes() {
        Logged(log, key, raw);
        LoggedText(log, key, raw);
        log := log + [Entry(key, raw)];
      }
    }

    method Get(key: string) returns (ff: Option<seq<StoredFact>>)
      requires Valid()
      modifies this
      ensures Valid() && noPersist == old(noPersist) && closed == old(closed) && faults >= old(faults)
      ensures ff == Peeked(old(prev), key)
      ensures ff.None? ==> prev == old(prev) && hits == old(hits) && log == old(log)
      ensures ff.Some? ==> prev == old(prev) - {key} && hits == old(hits) + 1
      ensures ff.Some? ==> log == if Writes() then old(log) + [Entry(key, old(prev)[key])] else old(log)
    {
      if key !in prev {
        return None;
      }
      ff := Unmarshal(prev[key]);
      if ff.None? {
        return;
      }
      UnmarshalComplete(prev[key]);
      WriteEntry(key, prev[key]);
      prev := prev - {key};
      hits := hits + 1;
    }

    method Peek(key: string) returns (ff: Option<seq<StoredFact>>)
      ensures ff == Peeked(prev, key)
    {
      if key !in prev {
        return None;
      }
      ff := Unmarshal(prev[key]);
    }

    /** The facts are encoded one at a time; one that cannot be encoded fails the spool. */
    method EmitFacts(ff: seq<StoredFact>)
      modifies this`spool, this`failed, this`faults
      ensures FailsByFault()
      ensures !failed ==> spool == old(spool) + FactsText(ff)
    {
      Emit([LBracket]);
      for i := 0 to |ff|
        invariant FailsByFault()
        invariant !failed ==> spool == old(spool) + ([LBracket] + Listed(ff[..i]))
      {
        assert ff[..i + 1] == ff[..i] + [ff[i]];
        ListedSnoc(ff[..i], ff[i]);
        if i > 0 {
          Emit([Comma]);
        }
        var encodes := Try();
        if !encodes {
          failed := true;
          return;
        }
        Emit([FactText(ff[i])]);
      }
      assert ff[..|ff|] == ff;
      Emit([RBracket]);
    }

    method Put(key: string, ff: seq<StoredFact>)
      requires Valid()
      modifies this`spool, this`failed, this`entries, this`log, this`faults
      ensures Valid() && faults >= old(faults)
      ensures log == if Writes() then old(log) + [Entry(key, FactsText(ff))] else old(log)
    {
      hide FactsText, EntriesText, Complete, AllComplete;
      if noPersist || closed {
        return;
      }
      FactsReadBack(ff);
      var ok := BeginEntry(key);
      if ok {
        EmitFacts(ff);
      }
      Logged(log, key, FactsText(ff));
      LoggedText(log, key, FactsText(ff));
      log := log + [Entry(key, FactsText(ff))];
    }

    method Discard()
      requires Valid()
      modifies this`closed, this`spool
      ensures Valid() && closed && dest.content == old(dest.content)
    {
      if closed {
        return;
      }
      closed := true;
      spool := [];
    }

    /** Publishes the spool, all of it or not at all. */
    method Save() returns (ok: bool)
      requires Valid()
      modifies this`closed, this`spool, this`faults, dest
      ensures Valid() && (closed || noPersist)
      ensures dest.content == old(dest.content) || dest.content == Some(File(own, log))
      ensures old(noPersist) || old(closed) || old(failed) ==> dest.content == old(dest.content)
      ensures ok && old(Writes()) ==> dest.content == Some(File(own, log))
      ensures !ok ==> dest.content == old(dest.content) && faults > 0
      ensures faults >= old(faults)
    {
      if noPersist || closed {
        return true;
      }
      closed := true;
      if failed {
        spool := [];
        return false;
      }
      spool := spool + [RBrace, RBrace];
      assert spool == File(own, log);
      var renamed := Try();
      if !renamed {
        spool := [];
        return false;
      }
      dest.content := Some(spool);
      return true;
    }
  }

  lemma Logged(log: seq<Entry>, key: string, raw: Tokens)
    requires AllComplete(log) && Complete(raw)
    ensures AllComplete(log + [Entry(key, raw)])
  {
    hide SkipValue;
  }

  lemma LoggedText(log: seq<Entry>, key: string, raw: Tokens)
    ensures EntriesText(log + [Entry(key, raw)], true) == EntriesText(log, true) + (Lead(key, |log|) + raw)
  {
    hide EntriesText;
    var e := Entry(key, raw);
    if log == [] {
      FirstEntry(e, true);
      NoEntries();
      assert log + [e] == [e];
    } else {
      NextEntry(log, e, true);
      assert [Comma] + EntryText(e) == Lead(key, |log|) + raw;
    }
  }

  lemma NoEntries()
    ensures EntriesText([], true) == []
  {
  }

  lemma {:induction false} UnmarshalElementsComplete(ts: Tokens)
    requires UnmarshalElements(ts).Some?
    ensures SkipElements(ts) == Some([])
    decreases |ts|
  {
    assert SkipValue(ts) == Some(ts[1..]);
    if ts[1..] == [RBracket] {
      assert ts[1..][1..] == [];
    } else {
      assert ts[1..][1..] == ts[2..];
      UnmarshalElementsComplete(ts[2..]);
    }
  }

  /** An entry that decodes to facts is one whole value. */
  lemma UnmarshalComplete(raw: Tokens)
    requires Unmarshal(raw).Some?
    ensures Complete(raw)
  {
    if raw == [Null] {
    } else if raw == [LBracket, RBracket] {
      assert raw[2..] == [];
    } else {
      UnmarshalElementsComplete(raw[1..]);
      assert raw[1..][0].FactText?;
    }
  }
}
