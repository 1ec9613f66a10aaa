/** Facts, the identity keys the diff derives from them, and when two facts of one identity
    count as changed. */
module Facts {
  import opened Text

  /** A property value: a string, or any other JSON value. */
  datatype Value = Str(s: string) | Other(raw: int)

  type Props = map<string, Value>

  datatype Relation = Relation(kind: string, target: string)

  datatype Fact = Fact(
    kind: string, name: string, file: string, line: int, repo: string,
    props: Props, relations: seq<Relation>)

  datatype Edge = Edge(source: string, kind: string, target: string, repo: string)

  datatype FactChange = FactChange(before: Fact, after: Fact)

  /** The JSON encoder and the `%v` verb, which the repository imports. */
  datatype Printer = Printer(
    props: Props -> string, relations: seq<Relation> -> string, verb: Value -> string)
  {
    /** What `encoding/json` guarantees of a map: distinct maps print distinctly, never as the
        empty text, and control characters are escaped. */
    ghost predicate Valid() {
      && (forall p, q :: props(p) == props(q) ==> p == q)
      && (forall p :: props(p) != "" && NulFree(props(p)))
    }
  }

  const DOC := "doc"
  const BODY_HASH := "body_hash"
  const DECL_HASH := "decl_hash"
  const INNER_HASH := "inner_hash"
  const SPAN_START := "span_start"
  const NON_ARCHITECTURAL: set<string> := {DOC, BODY_HASH, DECL_HASH, INNER_HASH, SPAN_START}

  function Show(pr: Printer, v: Value): string {
    match v
    case Str(s) => s
    case Other(_) => pr.verb(v)
  }

  function PropString(pr: Printer, props: Props, key: string): string {
    if key in props then Show(pr, props[key]) else ""
  }

  /** The string a property holds, or the empty string when it holds something else. */
  function StringProp(f: Fact, key: string): string {
    if key in f.props && f.props[key].Str? then f.props[key].s else ""
  }

  predicate IsDocument(f: Fact) {
    f.kind == "symbol" && StringProp(f, "symbol_kind") in ["document", "section"]
  }

  function Discriminator(pr: Printer, f: Fact): string {
    if f.kind == "route" then PropString(pr, f.props, "method")
    else if f.kind == "storage" then
      PropString(pr, f.props, "operation") + "|" + PropString(pr, f.props, "storage_kind")
    else ""
  }

  function FactKey(pr: Printer, f: Fact): string {
    f.kind + [NUL] + (f.repo + [NUL] + (f.file + [NUL] + (f.name + [NUL] + Discriminator(pr, f))))
  }

  function PropsJson(pr: Printer, props: Props): string {
    if |props| == 0 then "" else pr.props(props)
  }

  function RelationsJson(pr: Printer, rs: seq<Relation>): string {
    if |rs| == 0 then "" else pr.relations(rs)
  }

  function IntraGroupOrder(pr: Printer, f: Fact): string {
    Pad9(f.line) + [NUL] + (PropsJson(pr, f.props) + [NUL] + RelationsJson(pr, f.relations))
  }

  function FactSortKey(pr: Printer, f: Fact): string {
    FactKey(pr, f) + [NUL] + IntraGroupOrder(pr, f)
  }

  function EdgeKey(e: Edge): string {
    e.repo + [NUL] + (e.source + [NUL] + (e.kind + [NUL] + e.target))
  }

  function EdgeOf(f: Fact, r: Relation): Edge {
    Edge(f.name, r.kind, r.target, f.repo)
  }

  predicate HasNonArchitectural(f: Fact) {
    DOC in f.props || BODY_HASH in f.props || DECL_HASH in f.props || INNER_HASH in f.props || SPAN_START in f.props
  }

  function ArchitecturalProps(f: Fact): Props {
    f.props - NON_ARCHITECTURAL
  }

  predicate PropsChanged(pr: Printer, a: Fact, b: Fact) {
    if |a.props| == 0 && |b.props| == 0 then false
    else if PropsJson(pr, a.props) == PropsJson(pr, b.props) then false
    else if !HasNonArchitectural(a) && !HasNonArchitectural(b) then true
    else PropsJson(pr, ArchitecturalProps(a)) != PropsJson(pr, ArchitecturalProps(b))
  }

  lemma PropsJsonInjective(pr: Printer, p: Props, q: Props)
    requires pr.Valid()
    ensures PropsJson(pr, p) == PropsJson(pr, q) <==> p == q
  {
  }

  /** A pair is changed exactly when its architectural props differ. */
  lemma ChangedMeansArchitectural(pr: Printer, a: Fact, b: Fact)
    requires pr.Valid()
    ensures PropsChanged(pr, a, b) <==> ArchitecturalProps(a) != ArchitecturalProps(b)
  {
    PropsJsonInjective(pr, a.props, b.props);
    PropsJsonInjective(pr, ArchitecturalProps(a), ArchitecturalProps(b));
    AllArchitectural(a);
    AllArchitectural(b);
  }

  lemma AllArchitectural(f: Fact)
    ensures !HasNonArchitectural(f) ==> ArchitecturalProps(f) == f.props
  {
  }

  /** Equal order strings imply equal props: the encoder never writes a raw NUL. */
  lemma OrderFixesProps(pr: Printer, a: Fact, b: Fact)
    requires pr.Valid()
    requires IntraGroupOrder(pr, a) == IntraGroupOrder(pr, b)
    ensures a.props == b.props
  {
    FieldUnique(Pad9(a.line), PropsJson(pr, a.props) + [NUL] + RelationsJson(pr, a.relations),
                Pad9(b.line), PropsJson(pr, b.props) + [NUL] + RelationsJson(pr, b.relations));
    FieldUnique(PropsJson(pr, a.props), RelationsJson(pr, a.relations),
                PropsJson(pr, b.props), RelationsJson(pr, b.relations));
    PropsJsonInjective(pr, a.props, b.props);
  }

  predicate NulFreeFields(f: Fact) {
    NulFree(f.kind) && NulFree(f.repo) && NulFree(f.file) && NulFree(f.name)
  }

  predicate NulFreeRelations(f: Fact) {
    NulFree(f.repo) && NulFree(f.name) && forall r :: r in f.relations ==> NulFree(r.kind)
  }

  lemma KeyFixesFields(pr: Printer, a: Fact, b: Fact)
    requires NulFreeFields(a) && NulFreeFields(b)
    requires FactKey(pr, a) == FactKey(pr, b)
    ensures a.kind == b.kind && a.repo == b.repo && a.file == b.file && a.name == b.name
  {
    var a3, b3 := a.name + [NUL] + Discriminator(pr, a), b.name + [NUL] + Discriminator(pr, b);
    var a2, b2 := a.file + [NUL] + a3, b.file + [NUL] + b3;
    FieldUnique(a.kind, a.repo + [NUL] + a2, b.kind, b.repo + [NUL] + b2);
    FieldUnique(a.repo, a2, b.repo, b2);
    FieldUnique(a.file, a3, b.file, b3);
    FieldUnique(a.name, Discriminator(pr, a), b.name, Discriminator(pr, b));
  }

  lemma EdgeKeyFixesEdge(a: Edge, b: Edge)
    requires NulFree(a.repo) && NulFree(a.source) && NulFree(a.kind)
    requires NulFree(b.repo) && NulFree(b.source) && NulFree(b.kind)
    requires EdgeKey(a) == EdgeKey(b)
    ensures a == b
  {
    FieldUnique(a.repo, a.source + [NUL] + (a.kind + [NUL] + a.target), b.repo, b.source + [NUL] + (b.kind + [NUL] + b.target));
    FieldUnique(a.source, a.kind + [NUL] + a.target, b.source, b.kind + [NUL] + b.target);
    FieldUnique(a.kind, a.target, b.kind, b.target);
  }
}
