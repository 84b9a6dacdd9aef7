/** The pure parts of `ArangoExpert`: index templates per module type, the
    schema generated for a module from its capabilities, and the suggestions
    made for a query given the text of its execution plan. */
module ArangoExpert {
  import opened Wrappers
  import opened Strings
  import opened Json

  // ---------------------------------------------------------------------------
  // Index templates

  /** An index description; `unique` and `expireAfter` are absent unless set. */
  datatype IndexSpec = IndexSpec(kind: string, fields: seq<string>, name: string,
                                 unique: Option<bool>, expireAfter: Option<nat>)

  function Persistent(fields: seq<string>, name: string): IndexSpec {
    IndexSpec("persistent", fields, name, None, None)
  }

  const CommunicationIndexes: seq<IndexSpec> := [
    Persistent(["timestamp"], "idx_timestamp"),
    Persistent(["source", "target"], "idx_source_target"),
    IndexSpec("fulltext", ["content"], "idx_content_search", None, None)
  ]

  const KnowledgeIndexes: seq<IndexSpec> := [
    Persistent(["topic"], "idx_topic"),
    Persistent(["domain", "timestamp"], "idx_domain_time"),
    IndexSpec("hash", ["entity_id"], "idx_entity", Some(true), None)
  ]

  const TaskIndexes: seq<IndexSpec> := [
    Persistent(["status", "priority"], "idx_status_priority"),
    Persistent(["assigned_to"], "idx_assigned"),
    IndexSpec("ttl", ["expires_at"], "idx_ttl", None, Some(0))
  ]

  /** The templates by module type. */
  const IndexTemplates: map<string, seq<IndexSpec>> :=
    map["communication" := CommunicationIndexes, "knowledge" := KnowledgeIndexes, "task" := TaskIndexes]

  /** The template of a known module type; none for any other type. */
  function CreateIndexesForModule(moduleType: string): (r: seq<IndexSpec>)
    ensures moduleType == "communication" ==> r == CommunicationIndexes
    ensures moduleType == "knowledge" ==> r == KnowledgeIndexes
    ensures moduleType == "task" ==> r == TaskIndexes
    ensures r == [] <==> moduleType != "communication" && moduleType != "knowledge" && moduleType != "task"
  {
    if moduleType in IndexTemplates then IndexTemplates[moduleType] else []
  }

  /** Within each template the index names are distinct, and every index
      covers at least one field. */
  lemma IndexTemplatesWellFormed(moduleType: string)
    ensures var r := CreateIndexesForModule(moduleType);
            && (forall i, j :: 0 <= i < j < |r| ==> r[i].name != r[j].name)
            && (forall i :: 0 <= i < |r| ==> r[i].fields != [])
  {
  }

  // ---------------------------------------------------------------------------
  // Module schemas

  /** The collections and edges one capability contributes. */
  datatype CapabilityMapping = CapabilityMapping(collections: map<string, Value>, edges: map<string, Value>)

  datatype ModuleSchema = ModuleSchema(
    moduleName: string,
    collections: map<string, Value>,
    edges: map<string, Value>,
    indexes: seq<Value>,
    graphs: seq<Value>)

  function Strs(names: seq<string>): (v: Value)
    ensures v.JArray? && |v.items| == |names|
  {
    JArray(seq(|names|, i requires 0 <= i < |names| => JString(names[i])))
  }

  function Document(schema: map<string, Value>): Value {
    JObject(map["type" := JString("document"), "schema" := JObject(schema)])
  }

  function EdgeSpec(from: seq<string>, to: seq<string>): Value {
    JObject(map["from" := Strs(from), "to" := Strs(to)])
  }

  /** The collection every module gets. */
  const MetadataCollection: Value := Document(map[
    "name" := JString("string"),
    "version" := JString("string"),
    "capabilities" := Strs(["string"]),
    "registered_at" := JString("datetime"),
    "last_active" := JString("datetime")])

  const PdfExtraction: CapabilityMapping := CapabilityMapping(
    map["extracted_content" := Document(map[
      "source_url" := JString("string"),
      "content" := JString("text"),
      "metadata" := JString("object"),
      "extracted_at" := JString("datetime")])],
    map["extracted_from" := EdgeSpec(["extracted_content"], ["resources"])])

  const ThreatDetection: CapabilityMapping := CapabilityMapping(
    map["threats" := Document(map[
      "threat_type" := JString("string"),
      "severity" := JString("number"),
      "indicators" := Strs(["string"]),
      "detected_at" := JString("datetime")])],
    map["threatens" := EdgeSpec(["threats"], ["resources", "modules"])])

  /** The capabilities that add to a schema. */
  const CapabilityMappings: map<string, CapabilityMapping> :=
    map["pdf_extraction" := PdfExtraction, "threat_detection" := ThreatDetection]

  const NoContribution := CapabilityMapping(map[], map[])

  /** What capability `name` adds when it is among `capabilities`. */
  function Contribution(capabilities: seq<string>, name: string): CapabilityMapping
    requires name in CapabilityMappings
  {
    if name in capabilities then CapabilityMappings[name] else NoContribution
  }

  /** The collections of a module with these capabilities, whatever their order. */
  function CollectionsFor(capabilities: seq<string>): map<string, Value> {
    map["module_metadata" := MetadataCollection]
      + Contribution(capabilities, "pdf_extraction").collections
      + Contribution(capabilities, "threat_detection").collections
  }

  function EdgesFor(capabilities: seq<string>): map<string, Value> {
    Contribution(capabilities, "pdf_extraction").edges + Contribution(capabilities, "threat_detection").edges
  }

  /** The keys each capability mapping adds, and what any contribution adds. */
  lemma ContributionKeys(capabilities: seq<string>)
    ensures Contribution(capabilities, "pdf_extraction").collections.Keys ==
              if "pdf_extraction" in capabilities then {"extracted_content"} else {}
    ensures Contribution(capabilities, "pdf_extraction").edges.Keys ==
              if "pdf_extraction" in capabilities then {"extracted_from"} else {}
    ensures Contribution(capabilities, "threat_detection").collections.Keys ==
              if "threat_detection" in capabilities then {"threats"} else {}
    ensures Contribution(capabilities, "threat_detection").edges.Keys ==
              if "threat_detection" in capabilities then {"threatens"} else {}
  {
  }

  /** One more capability `c` changes only its own contribution. */
  lemma ContributionStep(capabilities: seq<string>, c: string, name: string)
    requires name in CapabilityMappings
    ensures Contribution(capabilities + [c], name) ==
              if c == name then CapabilityMappings[name] else Contribution(capabilities, name)
  {
    assert name in capabilities + [c] <==> name in capabilities || name == c;
  }

  /** Merging a mapping twice is merging it once, and the two mappings touch
      different keys, so the merge order does not matter. */
  lemma MergeLaws(base: map<string, Value>, c: CapabilityMapping, d: CapabilityMapping, m: CapabilityMapping)
    requires c == m || c == NoContribution
    requires m.collections.Keys !! d.collections.Keys && m.edges.Keys !! d.edges.Keys
    ensures base + c.collections + d.collections + m.collections == base + m.collections + d.collections
    ensures c.edges + d.edges + m.edges == m.edges + d.edges
  {
  }

  /** One more capability merges in its mapping when it has one, and changes
      nothing otherwise. */
  lemma SchemaStep(capabilities: seq<string>, c: string)
    ensures c in CapabilityMappings ==>
              && CollectionsFor(capabilities + [c]) == CollectionsFor(capabilities) + CapabilityMappings[c].collections
              && EdgesFor(capabilities + [c]) == EdgesFor(capabilities) + CapabilityMappings[c].edges
    ensures c !in CapabilityMappings ==>
              CollectionsFor(capabilities + [c]) == CollectionsFor(capabilities) && EdgesFor(capabilities + [c]) == EdgesFor(capabilities)
  {
    ContributionStep(capabilities, c, "pdf_extraction");
    ContributionStep(capabilities, c, "threat_detection");
    if c == "pdf_extraction" {
      PdfStep(capabilities);
    } else if c == "threat_detection" {
      ThreatStep(capabilities);
    }
  }

  lemma PdfStep(capabilities: seq<string>)
    ensures CollectionsFor(capabilities + ["pdf_extraction"]) == CollectionsFor(capabilities) + PdfExtraction.collections
    ensures EdgesFor(capabilities + ["pdf_extraction"]) == EdgesFor(capabilities) + PdfExtraction.edges
  {
    ContributionStep(capabilities, "pdf_extraction", "pdf_extraction");
    ContributionStep(capabilities, "pdf_extraction", "threat_detection");
    var base := map["module_metadata" := MetadataCollection];
    MergeLaws(base, Contribution(capabilities, "pdf_extraction"), Contribution(capabilities, "threat_detection"), PdfExtraction);
  }

  lemma ThreatStep(capabilities: seq<string>)
    ensures CollectionsFor(capabilities + ["threat_detection"]) == CollectionsFor(capabilities) + ThreatDetection.collections
    ensures EdgesFor(capabilities + ["threat_detection"]) == EdgesFor(capabilities) + ThreatDetection.edges
  {
    ContributionStep(capabilities, "threat_detection", "pdf_extraction");
    ContributionStep(capabilities, "threat_detection", "threat_detection");
    var front := map["module_metadata" := MetadataCollection] + Contribution(capabilities, "pdf_extraction").collections;
    var pdf := Contribution(capabilities, "pdf_extraction").edges;
    var threat := Contribution(capabilities, "threat_detection");
    MergeTwice(front, threat.collections, ThreatDetection.collections);
    MergeTwice(pdf, threat.edges, ThreatDetection.edges);
  }

  /** Merging `m`, after a merge of `m` or of nothing, is merging `m` once. */
  lemma MergeTwice(base: map<string, Value>, c: map<string, Value>, m: map<string, Value>)
    requires c == m || c == map[]
    ensures base + c + m == base + m
  {
  }

  /** `generate_module_schema`: the metadata collection, then each listed
      capability's collections and edges merged in turn. */
  method GenerateModuleSchema(moduleName: string, capabilities: seq<string>) returns (schema: ModuleSchema)
    ensures schema == ModuleSchema(moduleName, CollectionsFor(capabilities), EdgesFor(capabilities), [], [])
  {
    var collections: map<string, Value> := map[];
    collections := collections["module_metadata" := MetadataCollection];
    var edges: map<string, Value> := map[];
    var i := 0;
    assert capabilities[..i] == [];
    SchemaWithoutKnownCapabilities(capabilities[..i]);
    while i < |capabilities|
      invariant 0 <= i <= |capabilities|
      invariant collections == CollectionsFor(capabilities[..i])
      invariant edges == EdgesFor(capabilities[..i])
    {
      var capability := capabilities[i];
      SchemaStep(capabilities[..i], capability);
      assert capabilities[..i + 1] == capabilities[..i] + [capability];
      if capability in CapabilityMappings {
        var mapping := CapabilityMappings[capability];
        collections := collections + mapping.collections;
        edges := edges + mapping.edges;
      }
      i := i + 1;
    }
    assert capabilities[..i] == capabilities;
    schema := ModuleSchema(moduleName, collections, edges, [], []);
  }

  /** Every schema holds the metadata collection unchanged, and its other
      collections and edges are exactly those of its known capabilities. */
  lemma SchemaContents(capabilities: seq<string>)
    ensures "module_metadata" in CollectionsFor(capabilities)
    ensures CollectionsFor(capabilities)["module_metadata"] == MetadataCollection
    ensures CollectionsFor(capabilities).Keys ==
              {"module_metadata"}
                + (if "pdf_extraction" in capabilities then {"extracted_content"} else {})
                + (if "threat_detection" in capabilities then {"threats"} else {})
    ensures EdgesFor(capabilities).Keys ==
              (if "pdf_extraction" in capabilities then {"extracted_from"} else {})
                + (if "threat_detection" in capabilities then {"threatens"} else {})
  {
    SchemaCollections(capabilities);
    SchemaEdges(capabilities);
  }

  lemma SchemaCollections(capabilities: seq<string>)
    ensures "module_metadata" in CollectionsFor(capabilities)
    ensures CollectionsFor(capabilities)["module_metadata"] == MetadataCollection
    ensures CollectionsFor(capabilities).Keys ==
              {"module_metadata"}
                + (if "pdf_extraction" in capabilities then {"extracted_content"} else {})
                + (if "threat_detection" in capabilities then {"threats"} else {})
  {
    ContributionKeys(capabilities);
    var pdf := Contribution(capabilities, "pdf_extraction").collections;
    var threat := Contribution(capabilities, "threat_detection").collections;
    assert "module_metadata" !in pdf && "module_metadata" !in threat;
    MergeAfterBase("module_metadata", MetadataCollection, pdf, threat);
  }

  lemma SchemaEdges(capabilities: seq<string>)
    ensures EdgesFor(capabilities).Keys ==
              (if "pdf_extraction" in capabilities then {"extracted_from"} else {})
                + (if "threat_detection" in capabilities then {"threatens"} else {})
  {
    ContributionKeys(capabilities);
  }

  /** Merging two mappings without key `k` after `{k: v}`: `k` keeps `v`, and
      the keys are the union. */
  lemma MergeAfterBase(k: string, v: Value, p: map<string, Value>, q: map<string, Value>)
    requires k !in p && k !in q
    ensures k in map[k := v] + p + q && (map[k := v] + p + q)[k] == v
    ensures (map[k := v] + p + q).Keys == {k} + p.Keys + q.Keys
  {
  }

  /** Without a known capability a schema has only the metadata collection
      and no edges. */
  lemma SchemaWithoutKnownCapabilities(capabilities: seq<string>)
    requires forall c :: c in capabilities ==> c !in CapabilityMappings
    ensures CollectionsFor(capabilities) == map["module_metadata" := MetadataCollection]
    ensures EdgesFor(capabilities) == map[]
  {
    assert "pdf_extraction" !in capabilities;
    assert "threat_detection" !in capabilities;
  }

  /** Reordering or repeating capabilities gives the same schema. */
  lemma SchemaIgnoresOrder(a: seq<string>, b: seq<string>)
    requires forall c :: c in a <==> c in b
    ensures CollectionsFor(a) == CollectionsFor(b) && EdgesFor(a) == EdgesFor(b)
  {
    assert ("pdf_extraction" in a) == ("pdf_extraction" in b);
    assert ("threat_detection" in a) == ("threat_detection" in b);
    assert Contribution(a, "pdf_extraction") == Contribution(b, "pdf_extraction");
    assert Contribution(a, "threat_detection") == Contribution(b, "threat_detection");
  }

  // ---------------------------------------------------------------------------
  // Query suggestions

  const ScanSuggestion := "Consider adding indexes to avoid full collection scans"
  const LimitSuggestion := "Consider adding LIMIT to prevent returning too many results"
  const FilterSuggestion := "Filters may not be using indexes efficiently"
  const OptimizedVerdict := "Query appears optimized"

  /** The plan shows a full collection scan. */
  predicate ScansFully(plan: string) {
    Contains(plan, "FullCollectionScan")
  }

  /** The query returns results without a limit, ignoring case. */
  predicate LacksLimit(aql: string) {
    !Contains(Upper(aql), "LIMIT") && Contains(Upper(aql), "RETURN")
  }

  /** The query filters, spelled in capitals, and the plan mentions no index. */
  predicate FiltersWithoutIndex(aql: string, plan: string) {
    Contains(aql, "FILTER") && !Contains(plan, "INDEX")
  }

  /** The suggestions that fire, in the order they are checked. */
  function Suggestions(aql: string, plan: string): seq<string> {
    (if ScansFully(plan) then [ScanSuggestion] else [])
      + (if LacksLimit(aql) then [LimitSuggestion] else [])
      + (if FiltersWithoutIndex(aql, plan) then [FilterSuggestion] else [])
  }

  /** `optimize_query`, with `plan` the text of the query's execution plan. */
  method OptimizeQuery(aql: string, plan: string) returns (advice: string)
    ensures advice == if Suggestions(aql, plan) == [] then OptimizedVerdict else Join("\n", Suggestions(aql, plan))
  {
    var suggestions: seq<string> := [];
    if Contains(plan, "FullCollectionScan") {
      suggestions := suggestions + [ScanSuggestion];
    }
    if !Contains(Upper(aql), "LIMIT") && Contains(Upper(aql), "RETURN") {
      suggestions := suggestions + [LimitSuggestion];
    }
    if Contains(aql, "FILTER") && !Contains(plan, "INDEX") {
      suggestions := suggestions + [FilterSuggestion];
    }
    assert suggestions == Suggestions(aql, plan);
    advice := if suggestions != [] then Join("\n", suggestions) else OptimizedVerdict;
  }

  /** Each suggestion is made exactly when its check fires. */
  lemma SuggestionsExact(aql: string, plan: string)
    ensures ScanSuggestion in Suggestions(aql, plan) <==> ScansFully(plan)
    ensures LimitSuggestion in Suggestions(aql, plan) <==> LacksLimit(aql)
    ensures FilterSuggestion in Suggestions(aql, plan) <==> FiltersWithoutIndex(aql, plan)
    ensures |Suggestions(aql, plan)| <= 3
  {
  }

  /** Suggestions come in the fixed order: the scan first, the filter last. */
  lemma SuggestionsOrder(aql: string, plan: string)
    ensures ScansFully(plan) ==> Suggestions(aql, plan)[0] == ScanSuggestion
    ensures FiltersWithoutIndex(aql, plan) ==>
              Suggestions(aql, plan)[|Suggestions(aql, plan)| - 1] == FilterSuggestion
    ensures LacksLimit(aql) && !ScansFully(plan) ==> Suggestions(aql, plan)[0] == LimitSuggestion
  {
  }

  /** The advice is "Query appears optimized" exactly when no check fires. */
  lemma OptimizedExactlyWhenNothingFires(aql: string, plan: string)
    ensures var s := Suggestions(aql, plan);
            var advice := if s == [] then OptimizedVerdict else Join("\n", s);
            advice == OptimizedVerdict <==> !ScansFully(plan) && !LacksLimit(aql) && !FiltersWithoutIndex(aql, plan)
  {
    var s := Suggestions(aql, plan);
    if s != [] {
      JoinLength("\n", s);
      assert |OptimizedVerdict| < |s[0]|;
    }
  }

  /** The LIMIT check does not depend on the case of the query. */
  lemma LimitCheckIgnoresCase(aql: string)
    ensures LacksLimit(Upper(aql)) == LacksLimit(aql)
  {
    UpperIdempotent(aql);
  }
}
