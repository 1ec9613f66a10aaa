/** What a run of the extractors gives, in terms of which are enabled, which detect the repository and
    what each extracts (runExtractors in internal/engine/engine.go). */
module RunLaws {
  import opened Wrappers
  import opened Spool
  import opened Extraction

  function Flatten<T>(parts: seq<seq<T>>): seq<T> {
    if parts == [] then [] else Flatten(parts[..|parts| - 1]) + parts[|parts| - 1]
  }

  lemma FlattenSnoc<T>(parts: seq<seq<T>>, part: seq<T>)
    ensures Flatten(parts + [part]) == Flatten(parts) + part
  {
    assert (parts + [part])[..|parts|] == parts;
  }

  /** The extractor is enabled and applies to the repository. */
  predicate Applies(r: Repo, e: Extractor) {
    r.enabled(e.name) && r.detect(e.name) == Yes
  }

  predicate FailsRun(b: Build, r: Repo, i: nat)
    requires i < |b.extractors|
  {
    Applies(r, b.extractors[i]) && OutcomeIn(b, r, b.extractors[i]).Fatal?
  }

  function Gives(b: Build, r: Repo, i: nat): seq<StoredFact>
    requires i < |b.extractors|
  {
    var e := b.extractors[i];
    if Applies(r, e) && OutcomeIn(b, r, e).Facts? then OutcomeIn(b, r, e).facts else []
  }

  function Uses(b: Build, r: Repo, i: nat): seq<string>
    requires i < |b.extractors|
  {
    var e := b.extractors[i];
    if Applies(r, e) && OutcomeIn(b, r, e).Facts? then [e.name] else []
  }

  function Shadows(b: Build, r: Repo, i: nat): seq<string>
    requires i < |b.extractors|
  {
    var e := b.extractors[i];
    if !r.enabled(e.name) && r.explicit && r.detect(e.name) == Yes then [e.name] else []
  }

  function Reports(b: Build, r: Repo, i: nat): seq<(string, string)>
    requires i < |b.extractors|
  {
    var e := b.extractors[i];
    if r.enabled(e.name) && r.detect(e.name).Broken? then [(e.name, "detect: " + r.detect(e.name).msg)]
    else if Applies(r, e) && OutcomeIn(b, r, e).Failed? then [(e.name, OutcomeIn(b, r, e).msg)]
    else []
  }

  ghost predicate RanAs(b: Build, r: Repo, n: nat, p: Extracted)
    requires n <= |b.extractors|
  {
    && p.Ran?
    && p.facts == Flatten(seq(n, i requires 0 <= i < n => Gives(b, r, i)))
    && p.used == Flatten(seq(n, i requires 0 <= i < n => Uses(b, r, i)))
    && p.shadowed == Flatten(seq(n, i requires 0 <= i < n => Shadows(b, r, i)))
    && p.errors == Flatten(seq(n, i requires 0 <= i < n => Reports(b, r, i)))
  }

  lemma OneRuns(b: Build, r: Repo, i: nat, p: Extracted)
    requires i < |b.extractors| && p.Ran?
    ensures
      var q, e := RunOne(b, r, b.extractors[i], p), b.extractors[i];
      if FailsRun(b, r, i) then q == Aborted(e.name, OutcomeIn(b, r, e).msg)
      else q == Ran(p.facts + Gives(b, r, i), p.used + Uses(b, r, i), p.shadowed + Shadows(b, r, i), p.errors + Reports(b, r, i))
  {
    hide OutcomeIn;
    var none: seq<StoredFact> := [];
    assert p.facts + none == p.facts;
    assert p.used + [] == p.used && p.shadowed + [] == p.shadowed && p.errors + [] == p.errors;
  }

  lemma RanNext(b: Build, r: Repo, n: nat, p: Extracted)
    requires n < |b.extractors| && RanAs(b, r, n, p)
    ensures RanAs(b, r, n + 1,
      Ran(p.facts + Gives(b, r, n), p.used + Uses(b, r, n), p.shadowed + Shadows(b, r, n), p.errors + Reports(b, r, n)))
  {
    hide Gives, Uses, Shadows, Reports, Flatten;
    var m := n + 1;
    assert seq(m, i requires 0 <= i < m => Gives(b, r, i)) == seq(n, i requires 0 <= i < n => Gives(b, r, i)) + [Gives(b, r, n)];
    assert seq(m, i requires 0 <= i < m => Uses(b, r, i)) == seq(n, i requires 0 <= i < n => Uses(b, r, i)) + [Uses(b, r, n)];
    assert seq(m, i requires 0 <= i < m => Shadows(b, r, i)) == seq(n, i requires 0 <= i < n => Shadows(b, r, i)) + [Shadows(b, r, n)];
    assert seq(m, i requires 0 <= i < m => Reports(b, r, i)) == seq(n, i requires 0 <= i < n => Reports(b, r, i)) + [Reports(b, r, n)];
    FlattenSnoc(seq(n, i requires 0 <= i < n => Gives(b, r, i)), Gives(b, r, n));
    FlattenSnoc(seq(n, i requires 0 <= i < n => Uses(b, r, i)), Uses(b, r, n));
    FlattenSnoc(seq(n, i requires 0 <= i < n => Shadows(b, r, i)), Shadows(b, r, n));
    FlattenSnoc(seq(n, i requires 0 <= i < n => Reports(b, r, i)), Reports(b, r, n));
  }

  ghost predicate FirstFailure(b: Build, r: Repo, i: nat) {
    i < |b.extractors| && FailsRun(b, r, i) && forall j :: 0 <= j < i ==> !FailsRun(b, r, j)
  }

  ghost predicate NoneFails(b: Build, r: Repo, n: nat)
    requires n <= |b.extractors|
  {
    forall j :: 0 <= j < n ==> !FailsRun(b, r, j)
  }

  ghost predicate AbortedBy(b: Build, r: Repo, n: nat, p: Extracted) {
    exists i: nat :: i < n && FirstFailure(b, r, i) && p == Aborted(b.extractors[i].name, OutcomeIn(b, r, b.extractors[i]).msg)
  }

  /** The first `n` extractors abort at the first fatal one, and otherwise give what each gives. */
  lemma {:induction false} FirstRuns(b: Build, r: Repo, n: nat)
    requires n <= |b.extractors|
    ensures if RunFirst(b, r, n).Aborted? then AbortedBy(b, r, n, RunFirst(b, r, n))
            else RanAs(b, r, n, RunFirst(b, r, n)) && NoneFails(b, r, n)
  {
    hide RunOne, OutcomeIn, FailsRun, RanAs, RunFirst, AbortedBy, NoneFails;
    if n == 0 {
      NothingRan(b, r);
      NoneYet(b, r);
    } else {
      FirstRuns(b, r, n - 1);
      NextRuns(b, r, n - 1);
      NextFails(b, r, n - 1, RunFirst(b, r, n - 1));
    }
  }

  lemma NoneYet(b: Build, r: Repo)
    ensures NoneFails(b, r, 0)
  {
  }

  lemma NextFails(b: Build, r: Repo, n: nat, p: Extracted)
    requires n < |b.extractors|
    ensures AbortedBy(b, r, n, p) ==> AbortedBy(b, r, n + 1, p)
    ensures NoneFails(b, r, n) && !FailsRun(b, r, n) ==> NoneFails(b, r, n + 1)
    ensures NoneFails(b, r, n) && FailsRun(b, r, n) ==>
      AbortedBy(b, r, n + 1, Aborted(b.extractors[n].name, OutcomeIn(b, r, b.extractors[n]).msg))
  {
    hide OutcomeIn, FailsRun;
    if NoneFails(b, r, n) && FailsRun(b, r, n) {
      assert FirstFailure(b, r, n);
    }
  }

  lemma NextRuns(b: Build, r: Repo, n: nat)
    requires n < |b.extractors|
    requires RunFirst(b, r, n).Ran? ==> RanAs(b, r, n, RunFirst(b, r, n))
    ensures RunFirst(b, r, n).Aborted? ==> RunFirst(b, r, n + 1) == RunFirst(b, r, n)
    ensures RunFirst(b, r, n).Ran? && FailsRun(b, r, n) ==>
      RunFirst(b, r, n + 1) == Aborted(b.extractors[n].name, OutcomeIn(b, r, b.extractors[n]).msg)
    ensures RunFirst(b, r, n).Ran? && !FailsRun(b, r, n) ==> RunFirst(b, r, n + 1).Ran? && RanAs(b, r, n + 1, RunFirst(b, r, n + 1))
  {
    var p := RunFirst(b, r, n);
    if p.Ran? {
      OneRuns(b, r, n, p);
      assert RunFirst(b, r, n + 1) == RunOne(b, r, b.extractors[n], p);
      RanNextIs(b, r, n, p);
    }
    hide RunOne, OutcomeIn, RanAs;
  }

  lemma RanNextIs(b: Build, r: Repo, n: nat, p: Extracted)
    requires n < |b.extractors| && RanAs(b, r, n, p)
    ensures !FailsRun(b, r, n) ==> RanAs(b, r, n + 1, RunOne(b, r, b.extractors[n], p))
  {
    hide RunOne, OutcomeIn, RanAs, FailsRun, Gives, Uses, Shadows, Reports;
    RanIsRan(b, r, n, p);
    OneRuns(b, r, n, p);
    RanNext(b, r, n, p);
  }

  lemma RanIsRan(b: Build, r: Repo, n: nat, p: Extracted)
    requires n <= |b.extractors| && RanAs(b, r, n, p)
    ensures p.Ran?
  {
  }

  lemma NothingRan(b: Build, r: Repo)
    ensures RunFirst(b, r, 0) == Ran([], [], [], []) && RanAs(b, r, 0, RunFirst(b, r, 0))
  {
  }

  lemma Failing(b: Build, r: Repo, p: Extracted) returns (i: nat)
    requires AbortedBy(b, r, |b.extractors|, p)
    ensures i < |b.extractors| && FailsRun(b, r, i) && forall j :: 0 <= j < i ==> !FailsRun(b, r, j)
    ensures p == Aborted(b.extractors[i].name, OutcomeIn(b, r, b.extractors[i]).msg)
  {
    i :| i < |b.extractors| && FirstFailure(b, r, i) && p == Aborted(b.extractors[i].name, OutcomeIn(b, r, b.extractors[i]).msg);
  }

  /** A run fails exactly when an enabled extractor that applies fails it, and with the first such.
      Otherwise its facts are those of the enabled extractors that apply, in the order they are
      registered, with their names; its errors are the detections that broke and the extractions
      that failed; and the shadowed are those that apply but an explicit list leaves out. */
  lemma RunMeans(b: Build, r: Repo)
    ensures RunAll(b, r).Aborted? <==> exists i :: 0 <= i < |b.extractors| && FailsRun(b, r, i)
    ensures forall i :: 0 <= i < |b.extractors| && FailsRun(b, r, i) && (forall j :: 0 <= j < i ==> !FailsRun(b, r, j)) ==>
      RunAll(b, r) == Aborted(b.extractors[i].name, OutcomeIn(b, r, b.extractors[i]).msg)
    ensures (forall i :: 0 <= i < |b.extractors| ==> !FailsRun(b, r, i)) ==> RanAs(b, r, |b.extractors|, RunAll(b, r))
  {
    hide RunFirst, FailsRun, OutcomeIn, RanAs;
    FirstRuns(b, r, |b.extractors|);
    if RunAll(b, r).Aborted? {
      var i := Failing(b, r, RunAll(b, r));
      forall k | 0 <= k < |b.extractors| && FailsRun(b, r, k) && forall j :: 0 <= j < k ==> !FailsRun(b, r, j) ensures k == i {
        assert !(k < i) && !(i < k);
      }
    }
  }
}
