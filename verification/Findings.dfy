/** Findings and how a delta files them (internal/diff/diff.go, internal/diff/silencing.go). */
module Findings {
  import opened Wrappers
  import opened Text
  import opened Bags
  import opened Slices
  import opened Facts

  /** Positions are zero where none was measured. */
  datatype Evidence = Evidence(
    file: string, symbol: string, fact: string, detail: string, line: int, endLine: int, column: int, endColumn: int)

  datatype Insight = Insight(
    source: string, title: string, confidence: real, description: string, evidence: seq<Evidence>,
    actions: seq<string>, informational: bool, metrics: map<string, string>)

  datatype InsightChange = InsightChange(before: Insight, after: Insight)

  const CYCLES := "cycles"
  const CONSTRAINTS := "constraints"
  const INTENT := "intent"

  /** What the constraints package and the title pattern answer. `normalize` strips the numbers
      from a title; `ruleId` and `subject` read a violation's title. */
  datatype Reader = Reader(normalize: string -> string, ruleId: string -> string, subject: string -> string,
                           index: seq<Fact> -> Index)

  /** A snapshot's declarations and what they select. */
  datatype Index = Index(
    declaration: string -> Option<string>, exempts: (string, string) -> bool, components: string -> seq<string>,
    selects: (string, string) -> bool, measured: string -> bool, repos: set<string>, repoOf: string -> Option<string>)

  // ---- Identity and order ----

  function Entity(e: Evidence): string {
    if e.fact != "" then e.fact else if e.symbol != "" then e.symbol else e.file
  }

  function Entities(es: seq<Evidence>): seq<string> {
    if es == [] then []
    else if Entity(es[|es| - 1]) == "" then Entities(es[..|es| - 1])
    else Entities(es[..|es| - 1]) + [Entity(es[|es| - 1])]
  }

  function JoinedBy(ss: seq<string>, sep: string): string {
    if ss == [] then "" else if |ss| == 1 then ss[0] else ss[0] + sep + JoinedBy(ss[1..], sep)
  }

  function EvidenceEntities(finding: Insight): string {
    JoinedBy(Sorted(Entities(finding.evidence)), "\U{1f}")
  }

  function FindingKey(rd: Reader, finding: Insight): string {
    if finding.source == CYCLES then finding.source + [NUL] + EvidenceEntities(finding)
    else finding.source + [NUL] + rd.normalize(finding.title)
  }

  function InsightOrder(finding: Insight): string {
    EvidenceEntities(finding) + [NUL] + finding.title
  }

  function FindingSortKey(rd: Reader, finding: Insight): string {
    FindingKey(rd, finding) + [NUL] + InsightOrder(finding)
  }

  /** Two findings under one identity say different things. */
  predicate InsightChanged(a: Insight, b: Insight) {
    a.title != b.title || a.confidence != b.confidence || a.description != b.description || a.evidence != b.evidence
  }

  // ---- Causes ----

  /** What a piece of evidence cites. */
  predicate Cites(e: Evidence, name: string) {
    name != "" && (name == e.fact || name == e.symbol || name == e.file)
  }

  predicate StructuralCause(finding: Insight, touched: set<string>) {
    || finding.evidence == [] || finding.source == CONSTRAINTS || finding.source == INTENT
    || exists e, n :: e in finding.evidence && n in touched && Cites(e, n)
  }

  /** The path without its first segment, which in a multi-repository graph is a label. */
  function Unlabeled(file: string): Option<string> {
    var slash := Slash(file, 0);
    if slash.Some? && slash.value > 0 then Some(file[slash.value + 1..]) else None
  }

  function Slash(file: string, i: nat): (r: Option<nat>)
    requires i <= |file|
    ensures r.Some? ==> r.value < |file|
    decreases |file| - i
  {
    if i == |file| then None else if file[i] == '/' then Some(i) else Slash(file, i + 1)
  }

  predicate IsDeclaration(e: Evidence) {
    "rule: " <= e.fact || "component: " <= e.fact
  }

  predicate FileChanged(e: Evidence, changed: set<string>) {
    e.file != "" && (e.file in changed || (Unlabeled(e.file).Some? && Unlabeled(e.file).value in changed))
  }

  /** The change touched what a breach cites beyond its declaration: by changed files where they
      are known, else by names. */
  predicate WitnessTouched(finding: Insight, touched: set<string>, changed: Option<set<string>>) {
    if changed.Some? then
      exists e :: e in finding.evidence && FileChanged(e, changed.value)
    else
      exists e, n :: e in finding.evidence && !IsDeclaration(e) && n in touched && Cites(e, n)
  }

  method FindStructuralCause(finding: Insight, touched: set<string>) returns (v: bool)
    ensures v == StructuralCause(finding, touched)
  {
    if |finding.evidence| == 0 || finding.source == CONSTRAINTS || finding.source == INTENT {
      return true;
    }
    for i := 0 to |finding.evidence|
      invariant forall j, n :: 0 <= j < i && n in touched ==> !Cites(finding.evidence[j], n)
    {
      var e := finding.evidence[i];
      var names := [e.fact, e.symbol, e.file];
      for m := 0 to |names|
        invariant forall l :: 0 <= l < m ==> names[l] == "" || names[l] !in touched
      {
        if names[m] != "" && names[m] in touched {
          assert Cites(e, names[m]);
          return true;
        }
      }
      assert names[0] == e.fact && names[1] == e.symbol && names[2] == e.file;
    }
    v := false;
  }

  /** How one piece of evidence was touched, if it was. */
  function Witness(e: Evidence, touched: set<string>, changed: Option<set<string>>): Option<string> {
    if changed.Some? then
      if e.file != "" && e.file in changed.value then Some("the changed file " + e.file)
      else if Unlabeled(e.file).Some? && Unlabeled(e.file).value in changed.value
      then Some("the changed file " + Unlabeled(e.file).value)
      else None
    else if IsDeclaration(e) then None
    else if e.fact != "" && e.fact in touched then Some("a changed fact, " + e.fact)
    else if e.symbol != "" && e.symbol in touched then Some("a changed fact, " + e.symbol)
    else if e.file != "" && e.file in touched then Some("a changed fact, " + e.file)
    else None
  }

  function FirstWitness(es: seq<Evidence>, touched: set<string>, changed: Option<set<string>>): Option<string> {
    if es == [] then None
    else if Witness(es[0], touched, changed).Some? then Witness(es[0], touched, changed)
    else FirstWitness(es[1..], touched, changed)
  }

  lemma WitnessMeans(e: Evidence, touched: set<string>, changed: Option<set<string>>)
    ensures Witness(e, touched, changed).Some? <==>
      if changed.Some? then FileChanged(e, changed.value) else !IsDeclaration(e) && exists n :: n in touched && Cites(e, n)
  {
    hide IsDeclaration;
    if changed.None? && !IsDeclaration(e) {
      if Witness(e, touched, changed).Some? {
        assert Cites(e, e.fact) || Cites(e, e.symbol) || Cites(e, e.file);
      }
    }
  }

  lemma {:induction false} FirstWitnessMeans(es: seq<Evidence>, touched: set<string>, changed: Option<set<string>>)
    ensures FirstWitness(es, touched, changed).Some? <==> exists e :: e in es && Witness(e, touched, changed).Some?
    decreases |es|
  {
    hide Witness;
    if es != [] {
      FirstWitnessMeans(es[1..], touched, changed);
      assert es == [es[0]] + es[1..];
    }
  }

  lemma TouchedMeans(finding: Insight, touched: set<string>, changed: Option<set<string>>)
    ensures WitnessTouched(finding, touched, changed) <==> exists e :: e in finding.evidence && Witness(e, touched, changed).Some?
  {
    hide Witness, FileChanged, IsDeclaration, Cites;
    forall e ensures Witness(e, touched, changed).Some? <==>
      if changed.Some? then FileChanged(e, changed.value) else !IsDeclaration(e) && exists n :: n in touched && Cites(e, n)
    {
      WitnessMeans(e, touched, changed);
    }
  }

  /** Which piece of evidence was touched first, and by what. */
  method FindWitness(finding: Insight, touched: set<string>, changed: Option<set<string>>) returns (hit: Option<string>)
    ensures hit == FirstWitness(finding.evidence, touched, changed)
    ensures hit.Some? <==> WitnessTouched(finding, touched, changed)
  {
    FirstWitnessMeans(finding.evidence, touched, changed);
    TouchedMeans(finding, touched, changed);
    hide WitnessTouched, FileChanged, Cites;
    for i := 0 to |finding.evidence|
      invariant FirstWitness(finding.evidence, touched, changed) == FirstWitness(finding.evidence[i..], touched, changed)
    {
      var e := finding.evidence[i];
      assert finding.evidence[i..][1..] == finding.evidence[i + 1..];
      if changed.Some? {
        if e.file == "" {
          continue;
        }
        if e.file in changed.value {
          return Some("the changed file " + e.file);
        }
        var rest := Unlabeled(e.file);
        if rest.Some? && rest.value in changed.value {
          return Some("the changed file " + rest.value);
        }
      } else {
        if IsDeclaration(e) {
          continue;
        }
        var names := [e.fact, e.symbol, e.file];
        assert names[0] == e.fact && names[1] == e.symbol && names[2] == e.file;
        for m := 0 to |names|
          invariant forall l :: 0 <= l < m ==> names[l] == "" || names[l] !in touched
        {
          if names[m] != "" && names[m] in touched {
            assert Witness(e, touched, changed) == Some("a changed fact, " + names[m]);
            return Some("a changed fact, " + names[m]);
          }
        }
      }
    }
    hit := None;
  }

  // ---- Silencing ----

  predicate IsViolation(rd: Reader, finding: Insight) {
    finding.source == CONSTRAINTS && rd.ruleId(finding.title) != ""
  }

  /** The law moved, not the code: the rule went, its form changed, or this subject was excused. */
  predicate ByDeclarationChange(rd: Reader, base: Index, cur: Index, finding: Insight) {
    IsViolation(rd, finding) &&
    var id, subject := rd.ruleId(finding.title), rd.subject(finding.title);
    base.declaration(id).Some? &&
    (cur.declaration(id) != base.declaration(id) || (subject != "" && cur.exempts(id, subject) && !base.exempts(id, subject)))
  }

  predicate ByNewDeclaration(rd: Reader, base: Index, cur: Index, finding: Insight) {
    IsViolation(rd, finding) &&
    var id, subject := rd.ruleId(finding.title), rd.subject(finding.title);
    cur.declaration(id).Some? &&
    (base.declaration(id) != cur.declaration(id) || (subject != "" && base.exempts(id, subject) && !cur.exempts(id, subject)))
  }

  /** A subject that `cur` still measures left a component of the rule. */
  predicate LeftComponent(base: Index, cur: Index, component: string, name: string) {
    name != "" && cur.measured(name) && base.selects(component, name) && !cur.selects(component, name)
  }

  predicate ByMembershipChange(rd: Reader, base: Index, cur: Index, finding: Insight) {
    IsViolation(rd, finding) && exists component, e ::
      && component in base.components(rd.ruleId(finding.title)) && e in finding.evidence
      && (LeftComponent(base, cur, component, e.symbol) || LeftComponent(base, cur, component, e.fact))
  }

  /** A subject no longer measured whose repository is gone from the current snapshot. */
  predicate RepoGone(base: Index, cur: Index, name: string) {
    name != "" && !cur.measured(name) &&
    base.repoOf(name).Some? && base.repoOf(name).value != "" && base.repoOf(name).value !in cur.repos
  }

  predicate ByUnattributable(rd: Reader, base: Index, cur: Index, finding: Insight) {
    IsViolation(rd, finding) &&
    (base.declaration(rd.ruleId(finding.title)).None?
     || (cur.repos != {} && exists e :: e in finding.evidence && (RepoGone(base, cur, e.symbol) || RepoGone(base, cur, e.fact))))
  }

  /** Both indexes, built when first asked for. */
  class Silencing {
    const rd: Reader
    const baseline: seq<Fact>
    const current: seq<Fact>
    var built: bool
    var baseIndex: Option<Index>
    var curIndex: Option<Index>

    ghost predicate Valid()
      reads this
    {
      built ==> baseIndex == Some(rd.index(baseline)) && curIndex == Some(rd.index(current))
    }

    constructor (reader: Reader, base: seq<Fact>, cur: seq<Fact>)
      ensures Valid() && rd == reader && baseline == base && current == cur
    {
      rd, baseline, current, built, baseIndex, curIndex := reader, base, cur, false, None, None;
    }

    method Indexes() returns (base: Index, cur: Index)
      requires Valid()
      modifies this
      ensures Valid() && base == rd.index(baseline) && cur == rd.index(current)
    {
      if !built {
        built := true;
        baseIndex := Some(rd.index(baseline));
        curIndex := Some(rd.index(current));
      }
      return baseIndex.value, curIndex.value;
    }

    method DeclarationChanged(finding: Insight) returns (v: bool)
      requires Valid()
      modifies this
      ensures Valid() && v == ByDeclarationChange(rd, rd.index(baseline), rd.index(current), finding)
    {
      var id := rd.ruleId(finding.title);
      if finding.source != CONSTRAINTS || id == "" {
        return false;
      }
      var base, cur := Indexes();
      var was, now := base.declaration(id), cur.declaration(id);
      if was.None? {
        return false;
      }
      if now.None? || was.value != now.value {
        return true;
      }
      var subject := rd.subject(finding.title);
      v := subject != "" && cur.exempts(id, subject) && !base.exempts(id, subject);
    }

    method NewlyDeclared(finding: Insight) returns (v: bool)
      requires Valid()
      modifies this
      ensures Valid() && v == ByNewDeclaration(rd, rd.index(baseline), rd.index(current), finding)
    {
      var id := rd.ruleId(finding.title);
      if finding.source != CONSTRAINTS || id == "" {
        return false;
      }
      var base, cur := Indexes();
      var was, now := base.declaration(id), cur.declaration(id);
      if now.None? {
        return false;
      }
      if was.None? || was.value != now.value {
        return true;
      }
      var subject := rd.subject(finding.title);
      v := subject != "" && base.exempts(id, subject) && !cur.exempts(id, subject);
    }

    method MembershipChanged(finding: Insight) returns (v: bool)
      requires Valid()
      modifies this
      ensures Valid() && v == ByMembershipChange(rd, rd.index(baseline), rd.index(current), finding)
    {
      var id := rd.ruleId(finding.title);
      if finding.source != CONSTRAINTS || |finding.evidence| == 0 || id == "" {
        return false;
      }
      var base, cur := Indexes();
      var components := base.components(id);
      for i := 0 to |components|
        invariant forall h, j :: 0 <= h < i && 0 <= j < |finding.evidence| ==>
          !LeftComponent(base, cur, components[h], finding.evidence[j].symbol) && !LeftComponent(base, cur, components[h], finding.evidence[j].fact)
      {
        for j := 0 to |finding.evidence|
          invariant forall l :: 0 <= l < j ==>
            !LeftComponent(base, cur, components[i], finding.evidence[l].symbol) && !LeftComponent(base, cur, components[i], finding.evidence[l].fact)
        {
          var e := finding.evidence[j];
          if LeftComponent(base, cur, components[i], e.symbol) || LeftComponent(base, cur, components[i], e.fact) {
            assert components[i] in components && e in finding.evidence;
            return true;
          }
        }
      }
      v := false;
    }

    method Unattributable(finding: Insight) returns (v: bool)
      requires Valid()
      modifies this
      ensures Valid() && v == ByUnattributable(rd, rd.index(baseline), rd.index(current), finding)
    {
      var id := rd.ruleId(finding.title);
      if finding.source != CONSTRAINTS || id == "" {
        return false;
      }
      var base, cur := Indexes();
      if base.declaration(id).None? {
        return true;
      }
      if |cur.repos| == 0 {
        return false;
      }
      for j := 0 to |finding.evidence|
        invariant forall l :: 0 <= l < j ==>
          !RepoGone(base, cur, finding.evidence[l].symbol) && !RepoGone(base, cur, finding.evidence[l].fact)
      {
        var e := finding.evidence[j];
        if RepoGone(base, cur, e.symbol) || RepoGone(base, cur, e.fact) {
          assert e in finding.evidence;
          return true;
        }
      }
      v := false;
    }
  }
}
