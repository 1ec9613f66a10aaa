/** Which findings are the same one, which order they take within an identity, and what the tests of
    the filing mean, in the fields of a finding (internal/diff/diff.go, internal/diff/silencing.go). */
module FindingIdentity {
  import opened Wrappers
  import opened Text
  import opened Bags
  import opened Slices
  import opened Facts
  import opened Findings

  const UNIT: char := '\U{1f}'

  lemma SplitUnique(a: string, x: string, b: string, y: string, c: char)
    requires c !in a && c !in b && a + [c] + x == b + [c] + y
    ensures a == b && x == y
  {
    var s, t := a + [c] + x, b + [c] + y;
    assert s[|a|] == c && t[|b|] == c;
    assert forall i :: 0 <= i < |a| ==> s[i] == a[i] && s[i] != c;
    assert forall i :: 0 <= i < |b| ==> t[i] == b[i] && t[i] != c;
    assert a == s[..|a|] && b == t[..|b|];
    assert x == s[|a| + 1..] && y == t[|b| + 1..];
  }

  predicate Named(ss: seq<string>) {
    forall s :: s in ss ==> s != "" && UNIT !in s
  }

  lemma JoinedFront(ss: seq<string>)
    requires |ss| >= 2
    ensures JoinedBy(ss, "\U{1f}") == ss[0] + [UNIT] + JoinedBy(ss[1..], "\U{1f}")
  {
  }

  /** Joined names can be taken apart. */
  lemma {:induction false} JoinedUnique(a: seq<string>, b: seq<string>)
    requires Named(a) && Named(b) && JoinedBy(a, "\U{1f}") == JoinedBy(b, "\U{1f}")
    ensures a == b
    decreases |a|
  {
    JoinedShape(a);
    JoinedShape(b);
    if |a| >= 2 && |b| >= 2 {
      JoinedFront(a);
      JoinedFront(b);
      SplitUnique(a[0], JoinedBy(a[1..], "\U{1f}"), b[0], JoinedBy(b[1..], "\U{1f}"), UNIT);
      assert forall s :: s in a[1..] ==> s in a;
      assert forall s :: s in b[1..] ==> s in b;
      JoinedUnique(a[1..], b[1..]);
      assert a == [a[0]] + a[1..] && b == [b[0]] + b[1..];
    }
  }

  lemma JoinedShape(ss: seq<string>)
    requires Named(ss)
    ensures ss == [] <==> JoinedBy(ss, "\U{1f}") == ""
    ensures |ss| >= 2 <==> UNIT in JoinedBy(ss, "\U{1f}")
  {
    if |ss| >= 2 {
      JoinedFront(ss);
      assert JoinedBy(ss, "\U{1f}")[|ss[0]|] == UNIT;
    } else if |ss| == 1 {
      assert ss[0] in ss;
    }
  }

  /** What a piece of evidence is about: the fact it cites, else the symbol, else the file. */
  lemma EntityMeans(e: Evidence)
    ensures e.fact != "" ==> Entity(e) == e.fact
    ensures e.fact == "" && e.symbol != "" ==> Entity(e) == e.symbol
    ensures e.fact == "" && e.symbol == "" ==> Entity(e) == e.file
  {
  }

  /** The names a finding's evidence is about, those of nothing left out. */
  lemma {:induction false} EntitiesMean(es: seq<Evidence>, x: string)
    ensures multiset(Entities(es))[x] == if x == "" then 0 else |Members(es, Entity, x)|
    decreases |es|
  {
    hide Entity;
    if es != [] {
      EntitiesMean(es[..|es| - 1], x);
    }
  }

  lemma SameEntities(a: Insight, b: Insight)
    requires Named(Entities(a.evidence)) && Named(Entities(b.evidence))
    ensures EvidenceEntities(a) == EvidenceEntities(b) <==> multiset(Entities(a.evidence)) == multiset(Entities(b.evidence))
  {
    hide Entities, Sorted, Named;
    var s, t := Entities(a.evidence), Entities(b.evidence);
    SortedIsSorted(s);
    SortedIsSorted(t);
    if EvidenceEntities(a) == EvidenceEntities(b) {
      SortedNamed(s);
      SortedNamed(t);
      JoinedUnique(Sorted(s), Sorted(t));
    }
    if multiset(s) == multiset(t) {
      SortedUnique(Sorted(s), Sorted(t));
    }
  }

  lemma SortedNamed(s: seq<string>)
    requires Named(s)
    ensures Named(Sorted(s))
  {
    SortedIsSorted(s);
    forall x | x in Sorted(s) ensures x in s {
      assert x in multiset(Sorted(s));
    }
  }

  /** Cycles are one finding when they are about the same members, in whatever order; any others when
      they have one source and titles that normalize alike. A cycle is never another kind of finding. */
  lemma SameFinding(rd: Reader, a: Insight, b: Insight)
    requires NulFree(a.source) && NulFree(b.source)
    requires Named(Entities(a.evidence)) && Named(Entities(b.evidence))
    ensures FindingKey(rd, a) == FindingKey(rd, b) <==>
      && a.source == b.source
      && if a.source == "cycles" then multiset(Entities(a.evidence)) == multiset(Entities(b.evidence))
         else rd.normalize(a.title) == rd.normalize(b.title)
  {
    SameEntities(a, b);
    var x := if a.source == "cycles" then EvidenceEntities(a) else rd.normalize(a.title);
    var y := if b.source == "cycles" then EvidenceEntities(b) else rd.normalize(b.title);
    assert FindingKey(rd, a) == a.source + [NUL] + x && FindingKey(rd, b) == b.source + [NUL] + y;
    hide EvidenceEntities, Entities, FindingKey, Named;
    if FindingKey(rd, a) == FindingKey(rd, b) {
      FieldUnique(a.source, x, b.source, y);
    }
  }

  /** Findings take the same place in an identity when they are about the same names under one title. */
  lemma SamePlace(a: Insight, b: Insight)
    requires NulFree(EvidenceEntities(a)) && NulFree(EvidenceEntities(b))
    requires Named(Entities(a.evidence)) && Named(Entities(b.evidence))
    ensures InsightOrder(a) == InsightOrder(b) <==>
      multiset(Entities(a.evidence)) == multiset(Entities(b.evidence)) && a.title == b.title
  {
    SameEntities(a, b);
    hide EvidenceEntities, Entities, Named;
    if InsightOrder(a) == InsightOrder(b) {
      FieldUnique(EvidenceEntities(a), a.title, EvidenceEntities(b), b.title);
    }
  }

  // ---- The tests of the filing ----

  /** A cause: no evidence to judge by, a declared rule's finding, or a touched name in its evidence. */
  lemma CauseMeans(f: Insight, touched: set<string>)
    ensures StructuralCause(f, touched) <==>
      || f.evidence == [] || f.source in {"constraints", "intent"}
      || exists i, n :: 0 <= i < |f.evidence| && n in touched && n != "" && n in {f.evidence[i].fact, f.evidence[i].symbol, f.evidence[i].file}
  {
    if e, n :| e in f.evidence && n in touched && Cites(e, n) {
      var i :| 0 <= i < |f.evidence| && f.evidence[i] == e;
      assert n in {f.evidence[i].fact, f.evidence[i].symbol, f.evidence[i].file};
    }
    if i, n :| 0 <= i < |f.evidence| && n in touched && n != "" && n in {f.evidence[i].fact, f.evidence[i].symbol, f.evidence[i].file} {
      assert f.evidence[i] in f.evidence && Cites(f.evidence[i], n);
    }
  }

  lemma {:induction false} SlashFinds(file: string, i: nat)
    requires i <= |file|
    ensures Slash(file, i).None? <==> forall j :: i <= j < |file| ==> file[j] != '/'
    ensures Slash(file, i).Some? ==> i <= Slash(file, i).value && file[Slash(file, i).value] == '/'
    ensures Slash(file, i).Some? ==> forall j :: i <= j < Slash(file, i).value ==> file[j] != '/'
    decreases |file| - i
  {
    if i < |file| && file[i] != '/' {
      SlashFinds(file, i + 1);
    }
  }

  /** What is left without the label is what follows a first segment that is not empty. */
  lemma UnlabeledMeans(file: string, rest: string)
    ensures Unlabeled(file) == Some(rest) <==> exists name: string :: name != "" && '/' !in name && file == name + "/" + rest
  {
    SlashFinds(file, 0);
    var s := Slash(file, 0);
    if Unlabeled(file) == Some(rest) {
      var name := file[..s.value];
      assert file == name + "/" + rest;
    }
    if name: string :| name != "" && '/' !in name && file == name + "/" + rest {
      assert file[|name|] == '/';
      assert forall j :: 0 <= j < |name| ==> file[j] == name[j];
      assert file[|name| + 1..] == rest;
    }
  }

  lemma DeclarationMeans(e: Evidence)
    ensures IsDeclaration(e) <==> exists name: string :: e.fact == "rule: " + name || e.fact == "component: " + name
  {
    if "rule: " <= e.fact {
      assert e.fact == "rule: " + e.fact[6..];
    }
    if "component: " <= e.fact {
      assert e.fact == "component: " + e.fact[11..];
    }
  }

  /** A witness is named by the file or the fact that was touched. */
  lemma WitnessNames(e: Evidence, touched: set<string>, changed: Option<set<string>>)
    requires Witness(e, touched, changed).Some?
    ensures changed.Some? ==> exists n ::
      && n in changed.value && (n == e.file || Unlabeled(e.file) == Some(n))
      && Witness(e, touched, changed).value == "the changed file " + n
    ensures changed.None? ==> exists n ::
      && n in touched && n != "" && n in {e.fact, e.symbol, e.file} && !IsDeclaration(e)
      && Witness(e, touched, changed).value == "a changed fact, " + n
  {
    hide Unlabeled, IsDeclaration;
    if changed.Some? {
      var n := if e.file != "" && e.file in changed.value then e.file else Unlabeled(e.file).value;
      assert Witness(e, touched, changed).value == "the changed file " + n;
    } else {
      var n := if e.fact != "" && e.fact in touched then e.fact else if e.symbol != "" && e.symbol in touched then e.symbol else e.file;
      assert n in {e.fact, e.symbol, e.file} && Witness(e, touched, changed).value == "a changed fact, " + n;
    }
  }

  /** Where the changed files are known, a witness is touched when a file it cites changed, under its own
      path or under what follows a label; else when a touched name is cited by evidence that is not the
      declaration itself. */
  lemma WitnessTouchedMeans(f: Insight, touched: set<string>, changed: Option<set<string>>)
    ensures changed.Some? ==>
      (WitnessTouched(f, touched, changed) <==> exists i, n ::
        0 <= i < |f.evidence| && f.evidence[i].file != "" && n in changed.value && FileOrRest(f.evidence[i].file, n))
    ensures changed.None? ==>
      (WitnessTouched(f, touched, changed) <==> exists i, n ::
        0 <= i < |f.evidence| && !IsDeclaration(f.evidence[i]) && n in touched && n != "" && n in {f.evidence[i].fact, f.evidence[i].symbol, f.evidence[i].file})
  {
    if changed.Some? {
      forall e: Evidence ensures FileChanged(e, changed.value) <==> exists n :: e.file != "" && n in changed.value && FileOrRest(e.file, n) {
        FileChangedMeans(e, changed.value);
      }
      hide FileChanged, FileOrRest;
      if e :| e in f.evidence && FileChanged(e, changed.value) {
        var i :| 0 <= i < |f.evidence| && f.evidence[i] == e;
      }
      if i, n :| 0 <= i < |f.evidence| && f.evidence[i].file != "" && n in changed.value && FileOrRest(f.evidence[i].file, n) {
        assert f.evidence[i] in f.evidence && FileChanged(f.evidence[i], changed.value);
      }
    } else {
      hide IsDeclaration;
      if e, n :| e in f.evidence && !IsDeclaration(e) && n in touched && Cites(e, n) {
        var i :| 0 <= i < |f.evidence| && f.evidence[i] == e;
        assert n in {f.evidence[i].fact, f.evidence[i].symbol, f.evidence[i].file};
      }
      if i, n :| 0 <= i < |f.evidence| && !IsDeclaration(f.evidence[i]) && n in touched && n != "" && n in {f.evidence[i].fact, f.evidence[i].symbol, f.evidence[i].file} {
        assert f.evidence[i] in f.evidence && Cites(f.evidence[i], n);
      }
    }
  }

  /** The path is `n`, or `n` behind a first segment. */
  ghost predicate FileOrRest(file: string, n: string) {
    file == n || exists name: string :: name != "" && '/' !in name && file == name + "/" + n
  }

  lemma FileChangedMeans(e: Evidence, changed: set<string>)
    ensures FileChanged(e, changed) <==> exists n :: e.file != "" && n in changed && FileOrRest(e.file, n)
  {
    hide Unlabeled;
    if FileChanged(e, changed) {
      var n := if e.file in changed then e.file else Unlabeled(e.file).value;
      UnlabeledMeans(e.file, n);
      assert FileOrRest(e.file, n);
    }
    if n :| e.file != "" && n in changed && FileOrRest(e.file, n) {
      UnlabeledMeans(e.file, n);
    }
  }

  /** Within an identity the collections are in the order of the findings. */
  lemma SortedWithin(rd: Reader, a: Insight, b: Insight)
    requires FindingKey(rd, a) == FindingKey(rd, b)
    ensures Less(FindingSortKey(rd, a), FindingSortKey(rd, b)) <==> Less(InsightOrder(a), InsightOrder(b))
  {
    hide FindingKey, InsightOrder;
    LessAfter(FindingKey(rd, a) + [NUL], InsightOrder(a), InsightOrder(b));
  }

  // ---- What excuses a finding ----

  /** Only a breach of a declared rule is ever excused. */
  lemma OnlyBreachesExcused(rd: Reader, base: Index, cur: Index, f: Insight)
    requires f.source != "constraints" || rd.ruleId(f.title) == ""
    ensures !ByDeclarationChange(rd, base, cur, f) && !ByNewDeclaration(rd, base, cur, f)
    ensures !ByMembershipChange(rd, base, cur, f) && !ByUnattributable(rd, base, cur, f)
  {
  }

  /** Where neither the declarations, the memberships nor the repositories differ, nothing is excused. */
  lemma SelfExcusesNothing(rd: Reader, i: Index, f: Insight)
    ensures !ByDeclarationChange(rd, i, i, f) && !ByNewDeclaration(rd, i, i, f) && !ByMembershipChange(rd, i, i, f)
    ensures i.declaration(rd.ruleId(f.title)).Some? && (forall n: string :: i.repoOf(n).Some? ==> i.repoOf(n).value in i.repos) ==>
      !ByUnattributable(rd, i, i, f)
  {
  }

  /** A breach cleared by a change of the law: its rule is declared no more, or otherwise, or has come
      to exempt the subject. Nothing else of the law excuses it. */
  lemma ClearedByTheLaw(rd: Reader, base: Index, cur: Index, f: Insight)
    requires f.source == "constraints" && rd.ruleId(f.title) != ""
    ensures
      var id, s := rd.ruleId(f.title), rd.subject(f.title);
      && (base.declaration(id) == None ==> !ByDeclarationChange(rd, base, cur, f))
      && (base.declaration(id) != None && cur.declaration(id) != base.declaration(id) ==> ByDeclarationChange(rd, base, cur, f))
      && (base.declaration(id) != None && cur.declaration(id) == base.declaration(id) ==>
            (ByDeclarationChange(rd, base, cur, f) <==> s != "" && !base.exempts(id, s) && cur.exempts(id, s)))
    ensures ByNewDeclaration(rd, base, cur, f) <==> ByDeclarationChange(rd, cur, base, f)
  {
  }

  /** A breach cleared because a subject it cites moved out of a component of its rule. */
  lemma ClearedByMembership(rd: Reader, base: Index, cur: Index, f: Insight)
    requires f.source == "constraints" && rd.ruleId(f.title) != ""
    ensures ByMembershipChange(rd, base, cur, f) <==> exists i, j, n ::
      && 0 <= i < |base.components(rd.ruleId(f.title))| && 0 <= j < |f.evidence| && n in [f.evidence[j].symbol, f.evidence[j].fact]
      && n != "" && cur.measured(n)
      && base.selects(base.components(rd.ruleId(f.title))[i], n) && !cur.selects(base.components(rd.ruleId(f.title))[i], n)
  {
    var cs := base.components(rd.ruleId(f.title));
    if ByMembershipChange(rd, base, cur, f) {
      var c, e :| c in cs && e in f.evidence && (LeftComponent(base, cur, c, e.symbol) || LeftComponent(base, cur, c, e.fact));
      var i :| 0 <= i < |cs| && cs[i] == c;
      var j :| 0 <= j < |f.evidence| && f.evidence[j] == e;
      var n := if LeftComponent(base, cur, c, e.symbol) then e.symbol else e.fact;
      assert n in [f.evidence[j].symbol, f.evidence[j].fact];
    }
    if i, j, n :|
      && 0 <= i < |cs| && 0 <= j < |f.evidence| && n in [f.evidence[j].symbol, f.evidence[j].fact]
      && n != "" && cur.measured(n) && base.selects(cs[i], n) && !cur.selects(cs[i], n) {
      assert cs[i] in cs && f.evidence[j] in f.evidence && LeftComponent(base, cur, cs[i], n);
    }
  }

  /** A breach cleared for no reason the current snapshot can give: its rule was not declared, or a
      subject it cites is measured no more and its repository, where repositories are known, is gone. */
  lemma ClearedUnattributed(rd: Reader, base: Index, cur: Index, f: Insight)
    requires f.source == "constraints" && rd.ruleId(f.title) != ""
    ensures ByUnattributable(rd, base, cur, f) <==>
      || base.declaration(rd.ruleId(f.title)) == None
      || exists j, n, r ::
           && 0 <= j < |f.evidence| && n in [f.evidence[j].symbol, f.evidence[j].fact]
           && n != "" && !cur.measured(n) && base.repoOf(n) == Some(r) && r != "" && r !in cur.repos && cur.repos != {}
  {
    if base.declaration(rd.ruleId(f.title)) != None && ByUnattributable(rd, base, cur, f) {
      var e :| e in f.evidence && (RepoGone(base, cur, e.symbol) || RepoGone(base, cur, e.fact));
      var j :| 0 <= j < |f.evidence| && f.evidence[j] == e;
      var n := if RepoGone(base, cur, e.symbol) then e.symbol else e.fact;
      assert n in [f.evidence[j].symbol, f.evidence[j].fact] && base.repoOf(n) == Some(base.repoOf(n).value);
    }
    if j, n, r :|
      && 0 <= j < |f.evidence| && n in [f.evidence[j].symbol, f.evidence[j].fact]
      && n != "" && !cur.measured(n) && base.repoOf(n) == Some(r) && r != "" && r !in cur.repos && cur.repos != {} {
      assert f.evidence[j] in f.evidence && RepoGone(base, cur, n);
    }
  }
}
