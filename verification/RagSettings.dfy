/**
 The runtime settings: construction with its two-way guardrail synchronisation, dumping and patching
 (RAGSettings, backend/app/config.py:109-212, and the merge at backend/app/services/settings.py:51-55).
 */
module RagSettings {
  import opened Prelude

  datatype Json = Bool(b: bool) | Int(i: int) | Real(r: real) | Str(s: string) | Strs(ss: seq<string>)

  datatype Guard = Pii | Injection | Hallucination | RetrievalGate | Faithfulness

  /** One guardrail's sub-model: its switch and the rest of its fields. */
  datatype Sub = Sub(enabled: bool, detail: string)

  datatype PerGuard<T> = PerGuard(pii: T, injection: T, hallucination: T, gate: T, faithfulness: T) {
    function Of(g: Guard): T {
      match g
      case Pii => pii
      case Injection => injection
      case Hallucination => hallucination
      case RetrievalGate => gate
      case Faithfulness => faithfulness
    }
  }

  /** The plain fields and their defaults; the flat flags, `guardrails` and the two cache fields are kept apart. */
  function Defaults(): map<string, Json> {
    map["chunking_strategy" := Str("auto"), "chunk_size" := Int(1024), "chunk_overlap" := Int(200),
        "contextual_chunking_enabled" := Bool(false), "contextual_chunking_model" := Str("gpt-4.1-mini"),
        "contextual_chunking_max_doc_chars" := Int(2000), "embedding_provider" := Str("openai"),
        "embedding_model" := Str("text-embedding-3-small"), "search_mode" := Str("hybrid"),
        "keyword_engine" := Str("elasticsearch"), "rrf_constant" := Int(60), "vector_weight" := Real(0.5),
        "keyword_weight" := Real(0.5), "reranking_enabled" := Bool(true),
        "reranker_model" := Str("dragonkue/bge-reranker-v2-m3-ko"), "reranker_top_k" := Int(8),
        "retriever_top_k" := Int(20), "reranker_score_mode" := Str("calibrated"), "reranker_alpha" := Real(0.7),
        "hyde_enabled" := Bool(true), "hyde_model" := Str("gpt-4.1-mini"),
        "cascading_bm25_threshold" := Real(3.0), "cascading_min_qualifying_docs" := Int(3),
        "cascading_min_doc_score" := Real(1.0), "cascading_fallback_vector_weight" := Real(0.3),
        "cascading_fallback_keyword_weight" := Real(0.7), "query_expansion_enabled" := Bool(true),
        "query_expansion_max_keywords" := Int(10), "document_scope_enabled" := Bool(true),
        "document_scope_top_n" := Int(3), "multi_query_enabled" := Bool(true), "multi_query_count" := Int(4),
        "multi_query_model" := Str("gpt-4.1-mini"), "exact_citation_enabled" := Bool(true),
        "numeric_verification_enabled" := Bool(true), "pdf_parser" := Str("docling"), "ocr_enabled" := Bool(false),
        "ocr_languages" := Strs(["ko", "en"]), "table_extraction_enabled" := Bool(true),
        "llm_provider" := Str("openai"), "llm_model" := Str("gpt-4.1-mini"), "llm_temperature" := Real(0.3),
        "system_prompt" := Str("")]
  }

  /** Every guardrail is on by default; the empty detail stands for the sub-model's other defaults. */
  const DEFAULT_SUB := Sub(true, "")

  datatype RAGSettings = RAGSettings(
    fields: map<string, Json>,
    cacheEnabled: bool,
    cacheSearchTtl: int,
    flags: PerGuard<bool>,
    guards: PerGuard<Sub>)

  /**
   A dictionary of explicitly given fields: a stored JSON value, or the non-null part of a PATCH body.
   A sub-model given in part is taken with its own defaults filled in.
   */
  datatype Data = Data(
    fields: map<string, Json>,
    cacheEnabled: Option<bool>,
    cacheSearchTtl: Option<int>,
    flags: PerGuard<Option<bool>>,
    guardrails: Option<PerGuard<Option<Sub>>>)

  function Or<T>(a: Option<T>, b: T): T { if a.Some? then a.value else b }

  function GivenSub(d: Data, g: Guard): Sub {
    if d.guardrails.Some? then Or(d.guardrails.value.Of(g), DEFAULT_SUB) else DEFAULT_SUB
  }

  /** A flat flag that is given wins; otherwise it follows the sub-model. */
  function FlagOf(d: Data, g: Guard): bool {
    Or(d.flags.Of(g), GivenSub(d, g).enabled)
  }

  function SubOf(d: Data, g: Guard): Sub {
    if d.flags.Of(g).Some? then GivenSub(d, g).(enabled := d.flags.Of(g).value) else GivenSub(d, g)
  }

  function ForEach<T>(f: Guard -> T): PerGuard<T> {
    PerGuard(f(Pii), f(Injection), f(Hallucination), f(RetrievalGate), f(Faithfulness))
  }

  /** `RAGSettings(**data)`: unknown fields are ignored and missing ones take their default. */
  function Build(d: Data): RAGSettings {
    RAGSettings(map k | k in Defaults() :: if k in d.fields then d.fields[k] else Defaults()[k],
                Or(d.cacheEnabled, true), Or(d.cacheSearchTtl, 3600),
                ForEach(g => FlagOf(d, g)), ForEach(g => SubOf(d, g)))
  }

  /** `model_dump()` writes every field out. */
  function Dump(s: RAGSettings): Data {
    Data(s.fields, Some(s.cacheEnabled), Some(s.cacheSearchTtl),
         ForEach(g => Some(s.flags.Of(g))), Some(ForEach(g => Some(s.guards.Of(g)))))
  }

  function Given<T>(a: Option<T>, b: Option<T>): Option<T> { if a.Some? then a else b }

  /** `data.update(patch)`: `guardrails` is replaced as a whole. */
  function Merge(d: Data, p: Data): Data {
    Data(d.fields + p.fields, Given(p.cacheEnabled, d.cacheEnabled), Given(p.cacheSearchTtl, d.cacheSearchTtl),
         ForEach(g => Given(p.flags.Of(g), d.flags.Of(g))), Given(p.guardrails, d.guardrails))
  }

  function Patched(s: RAGSettings, p: Data): RAGSettings {
    Build(Merge(Dump(s), p))
  }

  /** What every constructed settings object satisfies: the declared fields, and flags equal to switches. */
  ghost predicate Built(s: RAGSettings) {
    s.fields.Keys == Defaults().Keys && forall g: Guard :: s.guards.Of(g).enabled == s.flags.Of(g)
  }

  lemma ForEachAt<T>(f: Guard -> T, g: Guard)
    ensures ForEach(f).Of(g) == f(g)
  {
  }

  lemma SamePerGuard<T>(a: PerGuard<T>, b: PerGuard<T>)
    requires forall g: Guard :: a.Of(g) == b.Of(g)
    ensures a == b
  {
    assert a.Of(Pii) == b.Of(Pii) && a.Of(Injection) == b.Of(Injection) && a.Of(Hallucination) == b.Of(Hallucination);
    assert a.Of(RetrievalGate) == b.Of(RetrievalGate) && a.Of(Faithfulness) == b.Of(Faithfulness);
  }

  lemma BuildIsBuilt(d: Data)
    ensures Built(Build(d))
  {
    hide Defaults, ForEach;
    forall g: Guard ensures Build(d).guards.Of(g).enabled == Build(d).flags.Of(g) {
      ForEachAt(g => FlagOf(d, g), g);
      ForEachAt(g => SubOf(d, g), g);
    }
  }

  lemma DumpedGuard(s: RAGSettings, g: Guard)
    ensures FlagOf(Dump(s), g) == s.flags.Of(g)
    ensures SubOf(Dump(s), g) == s.guards.Of(g).(enabled := s.flags.Of(g))
  {
  }

  lemma RebuiltGuard(s: RAGSettings, g: Guard)
    ensures Build(Dump(s)).flags.Of(g) == s.flags.Of(g)
    ensures Build(Dump(s)).guards.Of(g) == s.guards.Of(g).(enabled := s.flags.Of(g))
  {
    hide Defaults, FlagOf, SubOf, Dump;
    DumpedGuard(s, g);
  }

  /** Storing and loading gives the same settings back exactly for settings a constructor can make. */
  lemma DumpRoundTrip(s: RAGSettings)
    ensures Build(Dump(s)) == s <==> Built(s)
  {
    BuildIsBuilt(Dump(s));
    hide Defaults;
    if Built(s) {
      assert Build(Dump(s)).fields == s.fields;
      RebuiltGuards(s);
    }
  }

  lemma RebuiltGuards(s: RAGSettings)
    requires Built(s)
    ensures Build(Dump(s)).flags == s.flags && Build(Dump(s)).guards == s.guards
  {
    hide Defaults, Build, Dump;
    forall g: Guard
      ensures Build(Dump(s)).flags.Of(g) == s.flags.Of(g) && Build(Dump(s)).guards.Of(g) == s.guards.Of(g)
    {
      RebuiltGuard(s, g);
    }
    SamePerGuard(Build(Dump(s)).flags, s.flags);
    SamePerGuard(Build(Dump(s)).guards, s.guards);
  }

  /** Everything a settings object can be asked for, under one name. */
  datatype Name = Plain(key: string) | CacheEnabled | CacheSearchTtl | Flag(guard: Guard) | Detail(guard: Guard)

  ghost predicate Declared(n: Name) { n.Plain? ==> n.key in Defaults() }

  function ValueOf(s: RAGSettings, n: Name): Option<Json> {
    match n
    case Plain(k) => if k in s.fields then Some(s.fields[k]) else None
    case CacheEnabled => Some(Bool(s.cacheEnabled))
    case CacheSearchTtl => Some(Int(s.cacheSearchTtl))
    case Flag(g) => Some(Bool(s.flags.Of(g)))
    case Detail(g) => Some(Str(s.guards.Of(g).detail))
  }

  /** What a patch says about `n`; a `guardrails` object says something about every detail. */
  function GivenBy(p: Data, n: Name): Option<Json> {
    match n
    case Plain(k) => if k in p.fields then Some(p.fields[k]) else None
    case CacheEnabled => if p.cacheEnabled.Some? then Some(Bool(p.cacheEnabled.value)) else None
    case CacheSearchTtl => if p.cacheSearchTtl.Some? then Some(Int(p.cacheSearchTtl.value)) else None
    case Flag(g) => if p.flags.Of(g).Some? then Some(Bool(p.flags.Of(g).value)) else None
    case Detail(g) => if p.guardrails.Some? then Some(Str(GivenSub(p, g).detail)) else None
  }

  /** A patch sets exactly what it gives; everything else keeps its value. */
  lemma PatchIsFieldwise(s: RAGSettings, p: Data, n: Name)
    requires Built(s) && Declared(n)
    ensures ValueOf(Patched(s, p), n) == Given(GivenBy(p, n), ValueOf(s, n))
  {
    hide Defaults;
    if n.Flag? || n.Detail? { FlatFlagDecides(s, p, n.guard); }
  }

  /** What the constructor makes of a setting that the data does not give. */
  ghost function DefaultOf(n: Name): Json
    requires Declared(n)
  {
    match n
    case Plain(k) => Defaults()[k]
    case CacheEnabled => Bool(true)
    case CacheSearchTtl => Int(3600)
    case Flag(_) => Bool(true)
    case Detail(_) => Str("")
  }

  /** `enabled` of the guardrail's own object, where the data gives that object. */
  ghost function EnabledIn(d: Data, g: Guard): Option<Json> {
    if d.guardrails.Some? && d.guardrails.value.Of(g).Some? then Some(Bool(d.guardrails.value.Of(g).value.enabled))
    else None
  }

  /** The constructor: every declared setting is what the data gives, or else its default; a flat flag first. */
  lemma BuildMeaning(d: Data, n: Name)
    requires Declared(n)
    ensures ValueOf(Build(d), n) ==
            if n.Flag? && GivenBy(d, n).None? then Some(Or(EnabledIn(d, n.guard), DefaultOf(n)))
            else Some(Or(GivenBy(d, n), DefaultOf(n)))
  {
    match n
    case Plain(k) =>
    case CacheEnabled =>
    case CacheSearchTtl =>
    case Flag(g) => ForEachAt(g => FlagOf(d, g), g);
    case Detail(g) => ForEachAt(g => SubOf(d, g), g);
  }

  /** A constructed settings object is determined by its values. */
  lemma SameValues(s: RAGSettings, t: RAGSettings)
    requires Built(s) && Built(t)
    requires forall n :: Declared(n) ==> ValueOf(s, n) == ValueOf(t, n)
    ensures s == t
  {
    hide Defaults;
    assert Declared(CacheEnabled) && Declared(CacheSearchTtl);
    assert ValueOf(s, CacheEnabled) == ValueOf(t, CacheEnabled);
    assert ValueOf(s, CacheSearchTtl) == ValueOf(t, CacheSearchTtl);
    forall k | k in Defaults() ensures s.fields[k] == t.fields[k] {
      assert Declared(Plain(k)) && ValueOf(s, Plain(k)) == ValueOf(t, Plain(k));
    }
    assert s.fields == t.fields;
    forall g: Guard ensures s.flags.Of(g) == t.flags.Of(g) && s.guards.Of(g) == t.guards.Of(g) {
      assert Declared(Flag(g)) && ValueOf(s, Flag(g)) == ValueOf(t, Flag(g));
      assert Declared(Detail(g)) && ValueOf(s, Detail(g)) == ValueOf(t, Detail(g));
    }
    SamePerGuard(s.flags, t.flags);
    SamePerGuard(s.guards, t.guards);
  }

  /**
   Patching an out-of-date copy `s` instead of the current settings `t` loses nothing exactly when the
   two agree wherever the patch is silent.
   */
  lemma NothingLostIff(s: RAGSettings, t: RAGSettings, p: Data)
    requires Built(s) && Built(t)
    ensures Patched(s, p) == Patched(t, p) <==>
            forall n :: Declared(n) && GivenBy(p, n).None? ==> ValueOf(s, n) == ValueOf(t, n)
  {
    BuildIsBuilt(Merge(Dump(s), p));
    BuildIsBuilt(Merge(Dump(t), p));
    hide Defaults, Build, Dump, Merge, Built, GivenBy, ValueOf, Declared;
    forall n | Declared(n)
      ensures ValueOf(Patched(s, p), n) == Given(GivenBy(p, n), ValueOf(s, n))
      ensures ValueOf(Patched(t, p), n) == Given(GivenBy(p, n), ValueOf(t, n))
    {
      PatchIsFieldwise(s, p, n);
      PatchIsFieldwise(t, p, n);
    }
    if forall n :: Declared(n) && GivenBy(p, n).None? ==> ValueOf(s, n) == ValueOf(t, n) {
      SameValues(Patched(s, p), Patched(t, p));
    }
  }

  /**
   A guardrail is switched by its flat flag alone: the flag in the patch, else the flag before. The
   `guardrails` object of the patch sets the details but its `enabled` is overruled, because the dump
   that the patch is merged into gives every flat flag explicitly.
   */
  lemma FlatFlagDecides(s: RAGSettings, p: Data, g: Guard)
    ensures var t := Patched(s, p);
            && t.flags.Of(g) == Or(p.flags.Of(g), s.flags.Of(g))
            && t.guards.Of(g).enabled == t.flags.Of(g)
            && (p.guardrails.Some? ==> t.guards.Of(g).detail == Or(p.guardrails.value.Of(g), DEFAULT_SUB).detail)
            && (p.guardrails.None? ==> t.guards.Of(g).detail == s.guards.Of(g).detail)
  {
    hide Defaults;
  }
}
