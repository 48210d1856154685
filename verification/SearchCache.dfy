/**
 The search endpoint and its response cache (backend/app/api/search.py:64-147; key and hash at
 backend/app/services/cache.py:46-65).
 */
module SearchCache {
  import opened Prelude
  import opened RagSettings
  import opened SettingsService

  /** `top_k` is an int with a default, so it is never null. */
  datatype Request = Request(
    query: string,
    topK: int,
    searchMode: Option<string>,
    hydeEnabled: Option<bool>,
    rerankingEnabled: Option<bool>,
    multiQueryEnabled: Option<bool>,
    generateAnswer: bool)

  /** What the endpoint calls: two digests and the pipeline over a fixed index. */
  datatype Env = Env(
    settingsHash: map<string, Json> -> string,
    keyDigest: string -> string,
    orchestrate: (string, RAGSettings, bool) -> Response)

  const HASHED := {"search_mode", "hyde_enabled", "reranking_enabled", "multi_query_enabled", "reranker_top_k",
                   "retriever_top_k", "vector_weight", "keyword_weight", "rrf_constant", "embedding_model",
                   "llm_model", "llm_temperature", "cascading_bm25_threshold", "query_expansion_enabled",
                   "document_scope_enabled", "exact_citation_enabled"}

  function Subset(s: RAGSettings): map<string, Json> {
    map k | k in s.fields && k in HASHED :: s.fields[k]
  }

  function Override(fields: map<string, Json>, k: string, v: Option<Json>): map<string, Json> {
    if v.Some? then fields[k := v.value] else fields
  }

  function AsBool(b: Option<bool>): Option<Json> { if b.Some? then Some(Bool(b.value)) else None }

  function AsStr(s: Option<string>): Option<Json> { if s.Some? then Some(Str(s.value)) else None }

  function Overridden(fields: map<string, Json>, r: Request): map<string, Json> {
    var f1 := Override(fields, "search_mode", AsStr(r.searchMode));
    var f2 := Override(f1, "hyde_enabled", AsBool(r.hydeEnabled));
    var f3 := Override(f2, "reranking_enabled", AsBool(r.rerankingEnabled));
    var f4 := Override(f3, "multi_query_enabled", AsBool(r.multiQueryEnabled));
    Override(f4, "reranker_top_k", Some(Int(r.topK)))
  }

  function ApplyOverrides(base: RAGSettings, r: Request): RAGSettings {
    base.(fields := Overridden(base.fields, r))
  }

  function RawKey(query: string, hash: string): string { query + "|" + hash }

  function SearchKey(env: Env, query: string, s: RAGSettings): string {
    env.keyDigest(RawKey(query, env.settingsHash(Subset(s))))
  }

  /** The response computed now, without any cache. */
  function Fresh(env: Env, base: RAGSettings, r: Request): Response {
    env.orchestrate(r.query, ApplyOverrides(base, r), r.generateAnswer)
  }

  /** With the settings in hand: answer from the cache, or compute and store. */
  function Answered(env: Env, c: Shared, now: real, r: Request, base: RAGSettings): (Response, bool, Shared) {
    var s := ApplyOverrides(base, r);
    var key := SearchKey(env, r.query, s);
    if !s.cacheEnabled then (Fresh(env, base, r), false, c)
    else
      var (hit, c1) := SearchGet(c, now, key);
      if hit.Some? then (hit.value, true, c1)
      else (Fresh(env, base, r), false, SearchSet(c1, now, key, Fresh(env, base, r), s.cacheSearchTtl))
  }

  function Search(env: Env, v: Local, c: Shared, now: real, r: Request): (Response, bool, Local, Shared) {
    var (base, v1, c1) := Get(v, c, now);
    var (response, hit, c2) := Answered(env, c1, now, r, base);
    (response, hit, v1, c2)
  }

  method SearchEndpoint(env: Env, service: Service, now: real, r: Request) returns (response: Response, hit: bool)
    modifies service, service.cache
    ensures (response, hit, service.View(), service.Around()) ==
            Search(env, old(service.View()), old(service.Around()), now, r)
  {
    var base := service.GetSettings(now);
    var s := ApplyOverrides(base, r);
    if s.cacheEnabled {
      var cached := service.cache.GetSearch(now, SearchKey(env, r.query, s));
      if cached.Some? { return cached.value, true; }
    }
    response, hit := env.orchestrate(r.query, s, r.generateAnswer), false;
    if s.cacheEnabled {
      service.cache.SetSearch(now, SearchKey(env, r.query, s), response, s.cacheSearchTtl);
    }
  }

  // ---------------------------------------------------------------- what a key identifies

  /** The hash has a fixed length, so the separator cannot be confused with one inside the query. */
  lemma RawKeyIsInjective(q1: string, h1: string, q2: string, h2: string)
    requires |h1| == |h2| && RawKey(q1, h1) == RawKey(q2, h2)
    ensures q1 == q2 && h1 == h2
  {
    CutConcat(q1 + "|", h1);
    CutConcat(q2 + "|", h2);
    CutConcat(q1, "|");
    CutConcat(q2, "|");
  }

  lemma OverrideKeeps(f: map<string, Json>, k: string, v: Option<Json>, j: string)
    requires j != k
    ensures j in Override(f, k, v) <==> j in f
    ensures j in f ==> Override(f, k, v)[j] == f[j]
  {
  }

  /** An override changes hashed fields only. */
  lemma OverridesAreHashed(base: RAGSettings, r: Request, j: string)
    requires j !in HASHED
    ensures j in ApplyOverrides(base, r).fields <==> j in base.fields
    ensures j in base.fields ==> ApplyOverrides(base, r).fields[j] == base.fields[j]
  {
    var f1 := Override(base.fields, "search_mode", AsStr(r.searchMode));
    var f2 := Override(f1, "hyde_enabled", AsBool(r.hydeEnabled));
    var f3 := Override(f2, "reranking_enabled", AsBool(r.rerankingEnabled));
    var f4 := Override(f3, "multi_query_enabled", AsBool(r.multiQueryEnabled));
    OverrideKeeps(base.fields, "search_mode", AsStr(r.searchMode), j);
    OverrideKeeps(f1, "hyde_enabled", AsBool(r.hydeEnabled), j);
    OverrideKeeps(f2, "reranking_enabled", AsBool(r.rerankingEnabled), j);
    OverrideKeeps(f3, "multi_query_enabled", AsBool(r.multiQueryEnabled), j);
    OverrideKeeps(f4, "reranker_top_k", Some(Int(r.topK)), j);
    hide Override;
  }

  /** What a request asks for a setting, if anything. */
  ghost function Asked(r: Request, n: Name): Option<Json> {
    if n == Plain("search_mode") && r.searchMode.Some? then Some(Str(r.searchMode.value))
    else if n == Plain("hyde_enabled") && r.hydeEnabled.Some? then Some(Bool(r.hydeEnabled.value))
    else if n == Plain("reranking_enabled") && r.rerankingEnabled.Some? then Some(Bool(r.rerankingEnabled.value))
    else if n == Plain("multi_query_enabled") && r.multiQueryEnabled.Some? then Some(Bool(r.multiQueryEnabled.value))
    else if n == Plain("reranker_top_k") then Some(Int(r.topK))
    else None
  }

  lemma OverrideAt(f: map<string, Json>, k: string, v: Option<Json>, j: string)
    ensures FieldAt(Override(f, k, v), j) == if j == k && v.Some? then v else FieldAt(f, j)
  {
  }

  function FieldAt(f: map<string, Json>, j: string): Option<Json> { if j in f then Some(f[j]) else None }

  /** The effective settings of a request: each setting is what the request asks for it, or else the base's. */
  lemma OverridesMean(base: RAGSettings, r: Request, n: Name)
    ensures ValueOf(ApplyOverrides(base, r), n) == Given(Asked(r, n), ValueOf(base, n))
  {
    if n.Plain? {
      var j := n.key;
      var f1 := Override(base.fields, "search_mode", AsStr(r.searchMode));
      var f2 := Override(f1, "hyde_enabled", AsBool(r.hydeEnabled));
      var f3 := Override(f2, "reranking_enabled", AsBool(r.rerankingEnabled));
      var f4 := Override(f3, "multi_query_enabled", AsBool(r.multiQueryEnabled));
      OverrideAt(base.fields, "search_mode", AsStr(r.searchMode), j);
      OverrideAt(f1, "hyde_enabled", AsBool(r.hydeEnabled), j);
      OverrideAt(f2, "reranking_enabled", AsBool(r.rerankingEnabled), j);
      OverrideAt(f3, "multi_query_enabled", AsBool(r.multiQueryEnabled), j);
      OverrideAt(f4, "reranker_top_k", Some(Int(r.topK)), j);
      hide Override;
    }
  }

  /** Which settings the hash sees. */
  lemma HashSees(s: RAGSettings, t: RAGSettings)
    ensures var names := {"search_mode", "hyde_enabled", "reranking_enabled", "multi_query_enabled", "reranker_top_k",
                          "retriever_top_k", "vector_weight", "keyword_weight", "rrf_constant", "embedding_model",
                          "llm_model", "llm_temperature", "cascading_bm25_threshold", "query_expansion_enabled",
                          "document_scope_enabled", "exact_citation_enabled"};
            Subset(s) == Subset(t) <==> forall k :: k in names ==> ValueOf(s, Plain(k)) == ValueOf(t, Plain(k))
  {
    SubsetDecides(s, t);
    hide Subset, ValueOf;
  }

  lemma SubsetDecides(s: RAGSettings, t: RAGSettings)
    ensures Subset(s) == Subset(t) <==> forall k :: k in HASHED ==> ValueOf(s, Plain(k)) == ValueOf(t, Plain(k))
  {
    if Subset(s) == Subset(t) {
      forall k | k in HASHED ensures ValueOf(s, Plain(k)) == ValueOf(t, Plain(k)) {
        SubsetAt(s, k);
        SubsetAt(t, k);
      }
    }
    if forall k :: k in HASHED ==> ValueOf(s, Plain(k)) == ValueOf(t, Plain(k)) {
      forall k ensures (k in Subset(s) <==> k in Subset(t)) && (k in Subset(s) ==> Subset(s)[k] == Subset(t)[k]) {
        if k in HASHED { assert ValueOf(s, Plain(k)) == ValueOf(t, Plain(k)); }
      }
    }
  }

  lemma SubsetAt(s: RAGSettings, j: string)
    requires j in HASHED
    ensures j in Subset(s) <==> j in s.fields
    ensures j in s.fields ==> Subset(s)[j] == s.fields[j]
  {
  }

  /** Under one base, requests whose hashed fields agree run with the very same settings. */
  lemma HashedFieldsDecide(base: RAGSettings, q: Request, r: Request)
    ensures Subset(ApplyOverrides(base, q)) == Subset(ApplyOverrides(base, r)) <==>
            ApplyOverrides(base, q) == ApplyOverrides(base, r)
  {
    var s, t := ApplyOverrides(base, q), ApplyOverrides(base, r);
    if Subset(s) == Subset(t) {
      forall j ensures (j in s.fields <==> j in t.fields) && (j in s.fields ==> s.fields[j] == t.fields[j]) {
        hide Overridden, Subset;
        if j in HASHED {
          SubsetAt(s, j);
          SubsetAt(t, j);
        } else {
          OverridesAreHashed(base, q, j);
          OverridesAreHashed(base, r, j);
        }
      }
      assert s.fields == t.fields;
    }
  }

  function KeyOf(env: Env, base: RAGSettings, r: Request): string {
    SearchKey(env, r.query, ApplyOverrides(base, r))
  }

  function HashOf(env: Env, s: RAGSettings): string { env.settingsHash(Subset(s)) }

  /** The two digests separate the query `x` under `s` from the query `y` under `t` where they differ. */
  ghost predicate Apart(env: Env, x: string, s: RAGSettings, y: string, t: RAGSettings) {
    && |HashOf(env, s)| == |HashOf(env, t)|
    && (HashOf(env, s) == HashOf(env, t) ==> Subset(s) == Subset(t))
    && (env.keyDigest(RawKey(x, HashOf(env, s))) == env.keyDigest(RawKey(y, HashOf(env, t))) ==>
          RawKey(x, HashOf(env, s)) == RawKey(y, HashOf(env, t)))
  }

  /** A cache key stands for the query and the hashed fields, and for nothing else. */
  lemma KeySplits(env: Env, x: string, s: RAGSettings, y: string, t: RAGSettings)
    requires Apart(env, x, s, y, t)
    ensures SearchKey(env, x, s) == SearchKey(env, y, t) <==> x == y && Subset(s) == Subset(t)
  {
    hide Subset, RawKey;
    if SearchKey(env, x, s) == SearchKey(env, y, t) { RawKeyIsInjective(x, HashOf(env, s), y, HashOf(env, t)); }
  }

  ghost predicate NoCollision(env: Env, base: RAGSettings, q: Request, r: Request) {
    Apart(env, q.query, ApplyOverrides(base, q), r.query, ApplyOverrides(base, r))
  }

  /** Under one base, a key stands for the query and the settings the request runs with. */
  lemma KeyMeaning(env: Env, base: RAGSettings, q: Request, r: Request)
    requires NoCollision(env, base, q, r)
    ensures KeyOf(env, base, q) == KeyOf(env, base, r) <==>
            q.query == r.query && ApplyOverrides(base, q) == ApplyOverrides(base, r)
  {
    hide Subset, ApplyOverrides, SearchKey;
    KeySplits(env, q.query, ApplyOverrides(base, q), r.query, ApplyOverrides(base, r));
    HashedFieldsDecide(base, q, r);
  }

  // ---------------------------------------------------------------- how long a response is served

  /** For how many seconds a response stored under `s` is served. */
  ghost function Lifetime(c: Shared, s: RAGSettings): int {
    if s.cacheSearchTtl == 0 then c.defaultTtl else s.cacheSearchTtl
  }

  /**
   A request that was not answered from the cache, asked again later: the cache answers if and only if
   it is switched on, both in the settings and in the service, and the lifetime is not over.
   */
  lemma ServedForItsLifetime(env: Env, c: Shared, now: real, r: Request, base: RAGSettings, later: real)
    requires !Answered(env, c, now, r, base).1 && later >= now
    ensures var s, c1 := ApplyOverrides(base, r), Answered(env, c, now, r, base).2;
            Answered(env, c1, later, r, base).1 <==>
              s.cacheEnabled && c.enabled && later < now + Lifetime(c, s) as real
  {
    hide ApplyOverrides, SearchKey, Fresh;
  }

  /** A request is counted as a hit or a miss exactly when the cache is on, and touches no other key, entry or row. */
  lemma RequestsAreCounted(env: Env, c: Shared, now: real, r: Request, base: RAGSettings)
    ensures var s, (_, hit, c1) := ApplyOverrides(base, r), Answered(env, c, now, r, base);
            var asked := s.cacheEnabled && c.enabled;
            && c1.hits == c.hits + (if hit then 1 else 0)
            && c1.misses == c.misses + (if asked && !hit then 1 else 0)
            && c1.row == c.row && c1.entry == c.entry && c1.enabled == c.enabled && c1.defaultTtl == c.defaultTtl
            && forall k :: k != KeyOf(env, base, r) ==> Lookup(c1.search, k) == Lookup(c.search, k)
  {
    hide ApplyOverrides, SearchKey, Fresh;
  }
}
