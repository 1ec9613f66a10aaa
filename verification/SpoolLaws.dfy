/** The decoder reads back what the cache writes, and never part of it. */
module SpoolLaws {
  import opened Wrappers
  import opened Spool

  // ---- A decoder that has read something reads it again with more text behind ----

  lemma {:induction false} SkipValueExtends(ts: Tokens, more: Tokens)
    requires SkipValue(ts).Some?
    ensures SkipValue(ts + more) == Some(SkipValue(ts).value + more)
    decreases |ts|, 0
  {
    if Atom(ts[0]) {
      assert (ts + more)[1..] == ts[1..] + more;
    } else {
      if |ts| > 1 && (ts[1].RBracket? || ts[1].RBrace?) {
        assert (ts + more)[2..] == ts[2..] + more;
      }
      assert (ts + more)[1..] == ts[1..] + more;
      if ts[0].LBracket? && !(|ts| > 1 && ts[1].RBracket?) {
        SkipElementsExtends(ts[1..], more);
      }
      if ts[0].LBrace? && !(|ts| > 1 && ts[1].RBrace?) {
        SkipMembersExtends(ts[1..], more);
      }
    }
  }

  lemma {:induction false} SkipElementsExtends(ts: Tokens, more: Tokens)
    requires SkipElements(ts).Some?
    ensures SkipElements(ts + more) == Some(SkipElements(ts).value + more)
    decreases |ts|, 1
  {
    hide SkipValue, AfterElement;
    SkipValueExtends(ts, more);
    AfterElementExtends(SkipValue(ts).value, more);
  }

  lemma {:induction false} AfterElementExtends(v: Tokens, more: Tokens)
    requires AfterElement(v).Some?
    ensures AfterElement(v + more) == Some(AfterElement(v).value + more)
    decreases |v|, 1
  {
    hide SkipValue, SkipElements;
    assert (v + more)[1..] == v[1..] + more;
    if v[0].Comma? {
      SkipElementsExtends(v[1..], more);
    }
  }

  lemma {:induction false} SkipMembersExtends(ts: Tokens, more: Tokens)
    requires SkipMembers(ts).Some?
    ensures SkipMembers(ts + more) == Some(SkipMembers(ts).value + more)
    decreases |ts|, 1
  {
    hide SkipValue, NextKey, AfterMember;
    NextKeyExtends(ts, more, true);
    var s := NextKey(ts, true).value.1;
    SkipValueExtends(s, more);
    AfterMemberExtends(SkipValue(s).value, more);
  }

  lemma {:induction false} AfterMemberExtends(v: Tokens, more: Tokens)
    requires AfterMember(v).Some?
    ensures AfterMember(v + more) == Some(AfterMember(v).value + more)
    decreases |v|, 1
  {
    hide SkipValue, NextKey, SkipMembers;
    assert (v + more)[1..] == v[1..] + more;
    if v[0].Comma? {
      SkipMembersExtends(v[1..], more);
    }
  }

  lemma NextKeyExtends(ts: Tokens, more: Tokens, first: bool)
    requires NextKey(ts, first).Some?
    ensures NextKey(ts + more, first) == Some((NextKey(ts, first).value.0, NextKey(ts, first).value.1 + more))
  {
    var s := if first then ts else ts[1..];
    assert (ts + more)[1..] == ts[1..] + more;
    assert (s + more)[2..] == s[2..] + more;
  }

  lemma {:induction false} DecodeEntriesExtends(ts: Tokens, more: Tokens, first: bool, prev: Entries)
    requires DecodeEntries(ts, first, prev).Some?
    ensures DecodeEntries(ts + more, first, prev) ==
            Some((DecodeEntries(ts, first, prev).value.0, DecodeEntries(ts, first, prev).value.1 + more))
    decreases |ts|
  {
    hide SkipValue, NextKey;
    if !More(ts) {
      assert (ts + more)[1..] == ts[1..] + more;
    } else {
      NextKeyExtends(ts, more, first);
      var k := NextKey(ts, first).value;
      SkipValueExtends(k.1, more);
      var v := SkipValue(k.1).value;
      var raw := k.1[..|k.1| - |v|];
      assert (k.1 + more)[..|k.1 + more| - |v + more|] == raw;
      DecodeEntriesExtends(v, more, false, prev[k.0 := raw]);
    }
  }

  lemma DecodeFieldExtends(ts: Tokens, more: Tokens, p: Progress, own: Stamps)
    requires DecodeField(ts, p, own).Some?
    ensures DecodeField(ts + more, p, own) ==
            Some((DecodeField(ts, p, own).value.0, DecodeField(ts, p, own).value.1 + more))
  {
    hide SkipValue, NextKey, DecodeEntries;
    NextKeyExtends(ts, more, p.first);
    var (key, v) := NextKey(ts, p.first).value;
    assert (v + more)[1..] == v[1..] + more;
    if key == "version" || key == "build" {
    } else if key == "entries" {
      if !v[0].Null? {
        DecodeEntriesExtends(v[1..], more, true, p.prev);
      }
    } else {
      SkipValueExtends(v, more);
    }
  }

  // ---- Reading back ----

  lemma {:induction false} EntriesReadBack(log: seq<Entry>, first: bool, prev: Entries, tail: Tokens)
    requires AllComplete(log)
    ensures DecodeEntries(EntriesText(log, first) + ([RBrace] + tail), first, prev) == Some((Stored(log, prev), tail))
    decreases |log|
  {
    hide SkipValue, NextKey, EntryText, DecodeEntries, More;
    var end := [RBrace] + tail;
    if log == [] {
      assert EntriesText(log, first) + end == end;
      EndReadBack(first, prev, tail);
    } else {
      var e, rest := log[0], EntriesText(log[1..], false) + end;
      assert EntriesText(log, first) + end == (if first then EntryText(e) else [Comma] + EntryText(e)) + rest;
      hide EntriesText;
      OneReadBack(e, first, prev, rest);
      EntriesReadBack(log[1..], false, prev[e.key := e.raw], tail);
    }
  }

  lemma EndReadBack(first: bool, prev: Entries, tail: Tokens)
    ensures DecodeEntries([RBrace] + tail, first, prev) == Some((prev, tail))
  {
    assert ([RBrace] + tail)[1..] == tail;
  }

  /** One entry is read, and the decoder goes on behind it. */
  lemma OneReadBack(e: Entry, first: bool, prev: Entries, rest: Tokens)
    requires Complete(e.raw)
    ensures
      var ts := (if first then EntryText(e) else [Comma] + EntryText(e)) + rest;
      DecodeEntries(ts, first, prev) == DecodeEntries(rest, false, prev[e.key := e.raw])
  {
    hide SkipValue, NextKey;
    EntryReadBack(e, first, rest);
    SkipRaw(e.raw, rest);
    assert (e.raw + rest)[..|e.raw + rest| - |rest|] == e.raw;
  }

  lemma EntryReadBack(e: Entry, first: bool, rest: Tokens)
    ensures NextKey((if first then EntryText(e) else [Comma] + EntryText(e)) + rest, first) == Some((e.key, e.raw + rest))
  {
    var s := EntryText(e) + rest;
    assert s[2..] == e.raw + rest;
    var t := [Comma] + EntryText(e) + rest;
    assert t[1..] == s;
  }

  lemma SkipRaw(raw: Tokens, rest: Tokens)
    requires Complete(raw)
    ensures SkipValue(raw + rest) == Some(rest)
  {
    SkipValueExtends(raw, rest);
    assert [] + rest == rest;
  }

  /** What is left of a written file before its entries field, and before its build field. */
  function AfterStamps(rest: Tokens): Tokens {
    [Comma, Str("entries"), Colon, LBrace] + rest
  }

  function AfterVersion(own: Stamps, rest: Tokens): Tokens {
    [Comma, Str("build"), Colon, Str(own.build)] + AfterStamps(rest)
  }

  lemma VersionReadBack(own: Stamps, reader: Stamps, rest: Tokens)
    ensures
      var ts := (Header(own) + rest)[1..];
      More(ts) && DecodeField(ts, START, reader) ==
        if own.version == reader.version then Some((Progress(false, true, false, map[]), AfterVersion(own, rest))) else None
  {
    hide SkipValue, DecodeEntries;
    var ts, after := (Header(own) + rest)[1..], AfterVersion(own, rest);
    assert ts == [Str("version"), Colon, Str(own.version)] + after;
    assert ts[2..] == [Str(own.version)] + after && ts[2..][1..] == after;
  }

  lemma BuildReadBack(own: Stamps, reader: Stamps, rest: Tokens)
    ensures
      var ts := AfterVersion(own, rest);
      More(ts) && DecodeField(ts, Progress(false, true, false, map[]), reader) ==
        if own.build == reader.build then Some((Progress(false, true, true, map[]), AfterStamps(rest))) else None
  {
    hide SkipValue, DecodeEntries;
    var ts, after := AfterVersion(own, rest), AfterStamps(rest);
    assert ts[1..] == [Str("build"), Colon, Str(own.build)] + after;
    assert ts[1..][2..] == [Str(own.build)] + after && ts[1..][2..][1..] == after;
  }

  lemma EntriesFieldReadBack(own: Stamps, reader: Stamps, log: seq<Entry>)
    requires AllComplete(log)
    ensures
      var ts := AfterStamps(EntriesText(log, true) + [RBrace, RBrace]);
      && More(ts)
      && DecodeField(ts, Progress(false, true, true, map[]), reader) == Some((Progress(false, true, true, Stored(log, map[])), [RBrace]))
  {
    hide SkipValue, DecodeEntries, EntriesText, Stored;
    var body := EntriesText(log, true) + [RBrace, RBrace];
    var ts := AfterStamps(body);
    EntriesReadBack(log, true, map[], [RBrace]);
    assert [RBrace] + [RBrace] == [RBrace, RBrace];
    assert ts[1..][2..] == [LBrace] + body && ts[1..][2..][1..] == body;
  }

  /** A saved file serves what was written in the run that saved it, and serves it only to a
      reader of the same version and build. */
  lemma FileReadBack(own: Stamps, reader: Stamps, log: seq<Entry>)
    requires AllComplete(log)
    ensures Loaded(Some(File(own, log)), reader) == if own == reader then Stored(log, map[]) else map[]
  {
    hide DecodeField, EntriesText, Stored;
    var rest := EntriesText(log, true) + [RBrace, RBrace];
    VersionReadBack(own, reader, rest);
    BuildReadBack(own, reader, rest);
    EntriesFieldReadBack(own, reader, log);
    var stored := Progress(false, true, true, Stored(log, map[]));
    assert DecodeFields([RBrace], stored, reader) == Some(stored.prev);
    assert DecodeFields(AfterStamps(rest), Progress(false, true, true, map[]), reader) == Some(stored.prev);
    assert DecodeFields(AfterVersion(own, rest), Progress(false, true, false, map[]), reader)
        == if own.build == reader.build then Some(stored.prev) else None;
  }

  // ---- Truncation ----

  /** What the decoder would hold at some point between members. */
  ghost predicate HeldOnTheWay(ts: Tokens, p: Progress, own: Stamps, e: Entries)
    decreases |ts|
  {
    || e == p.prev
    || (More(ts) && DecodeField(ts, p, own).Some?
        && HeldOnTheWay(DecodeField(ts, p, own).value.1, DecodeField(ts, p, own).value.0, own, e))
  }

  lemma {:induction false} PrefixHeld(ts: Tokens, more: Tokens, p: Progress, own: Stamps)
    requires DecodeFields(ts, p, own).Some?
    ensures HeldOnTheWay(ts + more, p, own, DecodeFields(ts, p, own).value)
    decreases |ts|
  {
    hide DecodeField;
    if More(ts) {
      DecodeFieldExtends(ts, more, p, own);
      PrefixHeld(DecodeField(ts, p, own).value.1, more, DecodeField(ts, p, own).value.0, own);
    }
  }

  /** Wherever a saved file is cut off, it serves all it holds or nothing. */
  lemma CutFileServesNoPart(own: Stamps, reader: Stamps, log: seq<Entry>, n: nat)
    requires AllComplete(log) && n <= |File(own, log)|
    ensures Loaded(Some(File(own, log)[..n]), reader) == map[] || Loaded(Some(File(own, log)[..n]), reader) == Stored(log, map[])
  {
    hide DecodeField, EntriesText, Stored;
    var file := File(own, log);
    var rest := EntriesText(log, true) + [RBrace, RBrace];
    if n > 0 && Decode(file[..n], reader).Some? {
      assert file[..n][1..] + file[n..] == file[1..];
      PrefixHeld(file[..n][1..], file[n..], START, reader);
      VersionReadBack(own, reader, rest);
      BuildReadBack(own, reader, rest);
      EntriesFieldReadBack(own, reader, log);
      var e := Decode(file[..n], reader).value;
      assert HeldOnTheWay(file[1..], START, reader, e);
      assert HeldOnTheWay([RBrace], Progress(false, true, true, Stored(log, map[])), reader, e) ==> e == Stored(log, map[]);
      assert HeldOnTheWay(AfterStamps(rest), Progress(false, true, true, map[]), reader, e) ==> e == map[] || e == Stored(log, map[]);
      assert HeldOnTheWay(AfterVersion(own, rest), Progress(false, true, false, map[]), reader, e) ==> e == map[] || e == Stored(log, map[]);
    }
  }

  // ---- The writer's side ----

  lemma FirstEntry(e: Entry, first: bool)
    ensures EntriesText([e], first) == if first then EntryText(e) else [Comma] + EntryText(e)
  {
    assert [e][1..] == [];
  }

  lemma {:induction false} NextEntry(log: seq<Entry>, e: Entry, first: bool)
    requires log != []
    ensures EntriesText(log + [e], first) == EntriesText(log, first) + ([Comma] + EntryText(e))
    decreases |log|
  {
    assert (log + [e])[1..] == log[1..] + [e];
    if |log| == 1 {
      FirstEntry(e, false);
      FirstEntry(log[0], first);
      assert log == [log[0]] && log[1..] + [e] == [e];
    } else {
      NextEntry(log[1..], e, false);
    }
  }

  lemma {:induction false} StoredSnoc(log: seq<Entry>, e: Entry, before: Entries)
    ensures Stored(log + [e], before) == Stored(log, before)[e.key := e.raw]
    decreases |log|
  {
    if log != [] {
      StoredSnoc(log[1..], e, before[log[0].key := log[0].raw]);
      assert (log + [e])[1..] == log[1..] + [e];
    }
  }

  /** When no key was written twice, the file holds each entry once. */
  lemma {:induction false} StoredEach(log: seq<Entry>)
    requires WrittenOnce(log)
    ensures forall i :: 0 <= i < |log| ==> log[i].key in Stored(log, map[]) && Stored(log, map[])[log[i].key] == log[i].raw
    ensures |Stored(log, map[])| == |log|
    decreases |log|
  {
    if log != [] {
      var init, e := log[..|log| - 1], log[|log| - 1];
      assert log == init + [e];
      StoredEach(init);
      StoredSnoc(init, e, map[]);
      StoredKeys(init, e.key);
    }
  }

  lemma {:induction false} StoredKeys(log: seq<Entry>, k: string)
    ensures k in Stored(log, map[]) <==> exists i :: 0 <= i < |log| && log[i].key == k
    ensures k in Stored(log, map[]) ==> exists i :: 0 <= i < |log| && log[i].key == k && Stored(log, map[])[k] == log[i].raw
    decreases |log|
  {
    if log != [] {
      var init, e := log[..|log| - 1], log[|log| - 1];
      assert log == init + [e];
      StoredKeys(init, k);
      StoredSnoc(init, e, map[]);
      assert log[|log| - 1] == e;
      if k in Stored(init, map[]) && k != e.key {
        var i :| 0 <= i < |init| && init[i].key == k && Stored(init, map[])[k] == init[i].raw;
        assert log[i] == init[i];
      }
      if i :| 0 <= i < |log| && log[i].key == k && k != e.key {
        assert init[i] == log[i];
      }
    }
  }

  ghost predicate WrittenOnce(log: seq<Entry>) {
    forall i, j :: 0 <= i < j < |log| ==> log[i].key != log[j].key
  }

  /** Saving and loading: when each key was written once, the next run is served exactly the
      entries of this one. */
  lemma SavedEntries(own: Stamps, log: seq<Entry>)
    requires AllComplete(log) && WrittenOnce(log)
    ensures |Loaded(Some(File(own, log)), own)| == |log|
    ensures forall i :: 0 <= i < |log| ==>
      log[i].key in Loaded(Some(File(own, log)), own) && Loaded(Some(File(own, log)), own)[log[i].key] == log[i].raw
    ensures forall k :: k in Loaded(Some(File(own, log)), own) ==> exists i :: 0 <= i < |log| && log[i].key == k
  {
    hide Loaded, File, AllComplete, Stored;
    FileReadBack(own, own, log);
    StoredEach(log);
    forall k | k in Stored(log, map[]) ensures exists i :: 0 <= i < |log| && log[i].key == k {
      StoredKeys(log, k);
    }
  }

  lemma {:induction false} ListedSnoc(ff: seq<StoredFact>, f: StoredFact)
    ensures Listed(ff + [f]) == if ff == [] then [FactText(f)] else Listed(ff) + [Comma, FactText(f)]
    decreases |ff|
  {
    if |ff| > 0 {
      assert (ff + [f])[1..] == ff[1..] + [f];
      ListedSnoc(ff[1..], f);
      if |ff| == 1 {
        assert ff[1..] == [];
      }
    }
  }

  lemma ListedSplit(ff: seq<StoredFact>)
    requires |ff| > 1
    ensures
      var ts := Listed(ff) + [RBracket];
      && |ts| >= 2 && ts[0] == FactText(ff[0]) && ts[1] == Comma
      && ts[2..] == Listed(ff[1..]) + [RBracket] && ts[1..] == [Comma] + ts[2..] && ts[1..][1..] == ts[2..]
  {
    var ts := Listed(ff) + [RBracket];
    assert ts == [FactText(ff[0]), Comma] + (Listed(ff[1..]) + [RBracket]);
  }

  lemma {:induction false} ListedReadBack(ff: seq<StoredFact>)
    requires ff != []
    ensures UnmarshalElements(Listed(ff) + [RBracket]) == Some(ff)
    decreases |ff|
  {
    var ts := Listed(ff) + [RBracket];
    if |ff| == 1 {
      assert ts[1..] == [RBracket] && ff == [ff[0]];
    } else {
      ListedReadBack(ff[1..]);
      ListedSplit(ff);
      hide Listed;
      assert ff == [ff[0]] + ff[1..];
    }
  }

  lemma {:induction false} ListedComplete(ff: seq<StoredFact>)
    requires ff != []
    ensures SkipElements(Listed(ff) + [RBracket]) == Some([])
    decreases |ff|
  {
    var ts := Listed(ff) + [RBracket];
    if |ff| == 1 {
      assert ts[1..] == [RBracket] && ts[1..][1..] == [];
    } else {
      ListedComplete(ff[1..]);
      ListedSplit(ff);
      hide Listed;
      assert SkipValue(ts) == Some(ts[1..]);
    }
  }

  /** The facts a `put` wrote come back, in order. */
  lemma FactsReadBack(ff: seq<StoredFact>)
    ensures Unmarshal(FactsText(ff)) == Some(ff)
    ensures Complete(FactsText(ff))
  {
    var ts := FactsText(ff);
    hide UnmarshalElements, SkipElements;
    if ff == [] {
      assert ts == [LBracket, RBracket] && ts[2..] == [];
    } else {
      ListedReadBack(ff);
      ListedComplete(ff);
      ListedStarts(ff);
      hide Listed;
      assert ts[1..] == Listed(ff) + [RBracket] && ts[1] == FactText(ff[0]);
      assert ts[0] == LBracket && |ts| > 2;
    }
  }

  lemma ListedStarts(ff: seq<StoredFact>)
    requires ff != []
    ensures Listed(ff) != [] && Listed(ff)[0] == FactText(ff[0])
  {
  }

  /** A field the decoder does not know is passed over, whatever value it has. */
  lemma ForeignFieldSkipped(key: string, raw: Tokens, rest: Tokens, own: Stamps)
    requires Complete(raw) && key != "version" && key != "build" && key != "entries"
    ensures DecodeFields([Str(key), Colon] + (raw + rest), START, own) == DecodeFields(rest, START.(first := false), own)
  {
    hide SkipValue;
    var ts := [Str(key), Colon] + (raw + rest);
    assert ts[2..] == raw + rest;
    SkipRaw(raw, rest);
    hide DecodeEntries;
    assert DecodeField(ts, START, own) == Some((START.(first := false), rest));
  }

  // ---- No entry is served before its file has shown both stamps ----

  ghost predicate ShowsStamp(ts: Tokens, name: string, value: string) {
    exists i :: 0 <= i && i + 2 < |ts| && ts[i] == Str(name) && ts[i + 1] == Colon &&
      (ts[i + 2] == Str(value) || (ts[i + 2] == Null && value == ""))
  }

  /** At `n` the entries begin, and before it stand both stamps of this version and build. */
  ghost predicate StampedAt(file: Tokens, n: nat, own: Stamps) {
    n < |file| && file[n] == Str("entries") && ShowsStamp(file[..n], "version", own.version) && ShowsStamp(file[..n], "build", own.build)
  }

  lemma ShownLonger(a: Tokens, b: Tokens, name: string, value: string)
    requires ShowsStamp(a, name, value)
    ensures ShowsStamp(a + b, name, value)
  {
    var i :| 0 <= i && i + 2 < |a| && a[i] == Str(name) && a[i + 1] == Colon && (a[i + 2] == Str(value) || (a[i + 2] == Null && value == ""));
    assert (a + b)[i] == a[i] && (a + b)[i + 1] == a[i + 1] && (a + b)[i + 2] == a[i + 2];
  }

  /** What is read is cut from the front. */
  lemma {:induction false} EntriesSuffix(ts: Tokens, first: bool, prev: Entries)
    requires DecodeEntries(ts, first, prev).Some?
    ensures var rest := DecodeEntries(ts, first, prev).value.1; rest == ts[|ts| - |rest|..]
    decreases |ts|
  {
    if More(ts) {
      var (name, v) := NextKey(ts, first).value;
      var rest := SkipValue(v).value;
      EntriesSuffix(rest, false, prev[name := v[..|v| - |rest|]]);
    }
  }

  lemma KeyAt(ts: Tokens, first: bool)
    requires NextKey(ts, first).Some?
    ensures
      var (key, v) := NextKey(ts, first).value;
      var at := |ts| - |v| - 2;
      0 <= at && ts[at] == Str(key) && ts[at + 1] == Colon && v == ts[at + 2..]
  {
  }

  lemma FieldSuffix(ts: Tokens, p: Progress, own: Stamps)
    requires DecodeField(ts, p, own).Some?
    ensures var rest := DecodeField(ts, p, own).value.1; rest == ts[|ts| - |rest|..]
  {
    KeyAt(ts, p.first);
    var (key, v) := NextKey(ts, p.first).value;
    if key == "entries" && !v[0].Null? {
      EntriesSuffix(v[1..], true, p.prev);
    }
    hide SkipValue, DecodeEntries, NextKey;
  }

  /** What one member does: it shows a stamp, or needs both and begins the entries, or changes nothing. */
  lemma FieldShows(pre: Tokens, ts: Tokens, p: Progress, own: Stamps)
    requires DecodeField(ts, p, own).Some?
    requires (p.sawVersion ==> ShowsStamp(pre, "version", own.version)) && (p.sawBuild ==> ShowsStamp(pre, "build", own.build))
    ensures
      var (q, rest) := DecodeField(ts, p, own).value;
      var read := pre + ts[..|ts| - |rest|];
      && (q.sawVersion ==> ShowsStamp(read, "version", own.version)) && (q.sawBuild ==> ShowsStamp(read, "build", own.build))
      && (q.prev != p.prev ==> exists n :: StampedAt(read, n, own))
  {
    hide SkipValue, DecodeEntries, NextKey, ShowsStamp, DecodeField;
    FieldIs(ts, p, own);
    KeyAt(ts, p.first);
    var (key, v) := NextKey(ts, p.first).value;
    var (q, rest) := DecodeField(ts, p, own).value;
    var taken := ts[..|ts| - |rest|];
    if p.sawVersion {
      ShownLonger(pre, taken, "version", own.version);
    }
    if p.sawBuild {
      ShownLonger(pre, taken, "build", own.build);
    }
    if key == "version" || key == "build" {
      StampTaken(pre, ts, |ts| - |v| - 2, key, if key == "version" then own.version else own.build, |ts| - |rest|);
    } else if key == "entries" {
      EntriesBegin(pre, ts, |ts| - |v| - 2, |ts| - |rest|, own);
    }
  }

  lemma FieldIs(ts: Tokens, p: Progress, own: Stamps)
    requires DecodeField(ts, p, own).Some?
    ensures NextKey(ts, p.first).Some?
    ensures
      var (key, v) := NextKey(ts, p.first).value;
      var (q, rest) := DecodeField(ts, p, own).value;
      && v != [] && |rest| < |v|
      && if key == "version" then
           && q.sawVersion && q.sawBuild == p.sawBuild && q.prev == p.prev && |rest| == |v| - 1
           && (v[0] == Str(own.version) || (v[0] == Null && own.version == ""))
         else if key == "build" then
           && q.sawBuild && q.sawVersion == p.sawVersion && q.prev == p.prev && |rest| == |v| - 1
           && (v[0] == Str(own.build) || (v[0] == Null && own.build == ""))
         else if key == "entries" then p.sawVersion && p.sawBuild && q.sawVersion && q.sawBuild
         else q.sawVersion == p.sawVersion && q.sawBuild == p.sawBuild && q.prev == p.prev
  {
    hide SkipValue, DecodeEntries, NextKey;
  }

  lemma StampTaken(pre: Tokens, ts: Tokens, at: nat, name: string, value: string, n: nat)
    requires n == at + 3 <= |ts| && ts[at] == Str(name) && ts[at + 1] == Colon
    requires ts[at + 2] == Str(value) || (ts[at + 2] == Null && value == "")
    ensures ShowsStamp(pre + ts[..n], name, value)
  {
    hide ShowsStamp;
    ShownNow(pre, ts[..n], at, name, value);
  }

  lemma EntriesBegin(pre: Tokens, ts: Tokens, at: nat, n: nat, own: Stamps)
    requires at + 2 <= n <= |ts| && ts[at] == Str("entries")
    requires ShowsStamp(pre, "version", own.version) && ShowsStamp(pre, "build", own.build)
    ensures StampedAt(pre + ts[..n], |pre| + at, own)
  {
    hide ShowsStamp;
    ShownLonger(pre, ts[..at], "version", own.version);
    ShownLonger(pre, ts[..at], "build", own.build);
    assert (pre + ts[..n])[..|pre| + at] == pre + ts[..at];
    assert (pre + ts[..n])[|pre| + at] == ts[at];
  }

  lemma ShownNow(pre: Tokens, ts: Tokens, at: nat, name: string, value: string)
    requires at + 2 < |ts| && ts[at] == Str(name) && ts[at + 1] == Colon
    requires ts[at + 2] == Str(value) || (ts[at + 2] == Null && value == "")
    ensures ShowsStamp(pre + ts, name, value)
  {
    var i := |pre| + at;
    assert (pre + ts)[i] == ts[at] && (pre + ts)[i + 1] == ts[at + 1] && (pre + ts)[i + 2] == ts[at + 2];
  }

  lemma {:induction false} FieldsStamped(pre: Tokens, ts: Tokens, p: Progress, own: Stamps)
    requires DecodeFields(ts, p, own).Some?
    requires (p.sawVersion ==> ShowsStamp(pre, "version", own.version)) && (p.sawBuild ==> ShowsStamp(pre, "build", own.build))
    ensures DecodeFields(ts, p, own).value == p.prev || exists n :: StampedAt(pre + ts, n, own)
    decreases |ts|
  {
    hide DecodeField, ShowsStamp;
    if More(ts) {
      var (q, rest) := DecodeField(ts, p, own).value;
      var taken := ts[..|ts| - |rest|];
      FieldSuffix(ts, p, own);
      FieldShows(pre, ts, p, own);
      assert ts == taken + rest;
      assert (pre + taken) + rest == pre + ts;
      FieldsStamped(pre + taken, rest, q, own);
      if q.prev != p.prev {
        var n :| StampedAt(pre + taken, n, own);
        StampedLonger(pre + taken, rest, n, own);
      }
    }
  }

  lemma StampedLonger(a: Tokens, b: Tokens, n: nat, own: Stamps)
    requires StampedAt(a, n, own)
    ensures StampedAt(a + b, n, own)
  {
    hide ShowsStamp;
    assert (a + b)[..n] == a[..n] && (a + b)[n] == a[n];
  }

  /** Whatever the file says, it serves nothing unless both stamps, of this version and this build,
      stand in it before its entries. */
  lemma ServedOnlyStamped(file: Tokens, own: Stamps)
    requires Loaded(Some(file), own) != map[]
    ensures exists n :: StampedAt(file, n, own)
  {
    hide DecodeFields, StampedAt, ShowsStamp;
    FieldsStamped([file[0]], file[1..], START, own);
    assert [file[0]] + file[1..] == file;
  }
}
