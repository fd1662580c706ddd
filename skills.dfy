/**
 * `extract_skills`: three signals appended to one list, then deduplicated.
 * The named-entity and noun-chunk signals filter what the language model
 * found, which is given here as input; the keyword signal looks for each
 * term of a fixed dictionary in the lower-cased text.
 */
module Skills {
  import opened Text
  import opened Lists

  /** The dictionary of technical skills, in the source's order. */
  const TechTerms: seq<string> := [
    "python", "java", "javascript", "react", "node.js", "sql", "html", "css",
    "machine learning", "data analysis", "project management", "leadership",
    "communication", "teamwork", "problem solving", "git", "docker", "kubernetes",
    "aws", "azure", "gcp", "tensorflow", "pytorch", "pandas", "numpy", "fastapi",
    "django", "flask", "mongodb", "postgresql", "mysql", "redis", "elasticsearch",
    "agile", "scrum", "devops", "ci/cd", "testing", "debugging", "api", "rest",
    "graphql", "microservices", "cloud computing", "data science", "analytics"
  ]

  /** How many leading dictionary terms the noun-chunk signal looks for. */
  const ChunkTermCount: nat := 10

  /** The entity labels that can name a skill. */
  const EntityLabels: seq<string> := ["ORG", "PRODUCT", "LANGUAGE", "PERSON"]

  /** An entity counts as a skill only if its lower-cased text contains one of these. */
  const EntityHints: seq<string> := ["python", "java", "react", "aws", "google", "microsoft"]

  /** A noun chunk has at most this many words ... */
  const MaxChunkWords: nat := 3

  /** ... and more than this many characters. */
  const MinChunkLength: nat := 2

  /** A named entity found by the language model: its text and its label (`ent.label_`). */
  datatype Entity = Entity(text: string, kind: string)

  predicate IsTechEntity(ent: Entity)
  {
    ent.kind in EntityLabels && ContainsAny(Lower(ent.text), EntityHints)
  }

  predicate IsTechChunk(chunk: string)
  {
    && WordCount(chunk) <= MaxChunkWords
    && |chunk| > MinChunkLength
    && (HasUpper(chunk) || ContainsAny(Lower(chunk), TechTerms[..ChunkTermCount]))
  }

  /** The texts of the entities that look technical, in order. */
  function EntitySkills(ents: seq<Entity>): seq<string>
  {
    if ents == [] then []
    else
      var last := ents[|ents| - 1];
      EntitySkills(ents[..|ents| - 1]) + (if IsTechEntity(last) then [last.text] else [])
  }

  /** `term.title()` for each of `terms` that occurs in `lower`, in order. */
  function KeywordSkills(lower: string, terms: seq<string>): seq<string>
  {
    if terms == [] then []
    else
      var last := terms[|terms| - 1];
      KeywordSkills(lower, terms[..|terms| - 1]) + (if Contains(lower, last) then [Title(last)] else [])
  }

  /** The noun chunks that look technical, in order. */
  function ChunkSkills(chunks: seq<string>): seq<string>
  {
    if chunks == [] then []
    else
      var last := chunks[|chunks| - 1];
      ChunkSkills(chunks[..|chunks| - 1]) + (if IsTechChunk(last) then [last] else [])
  }

  /** The list `extract_skills` builds before deduplicating it. */
  function Candidates(text: string, ents: seq<Entity>, chunks: seq<string>): seq<string>
  {
    EntitySkills(ents) + KeywordSkills(Lower(text), TechTerms) + ChunkSkills(chunks)
  }

  /** What `extract_skills` returns (its order being that of first occurrence). */
  function SkillsOf(text: string, ents: seq<Entity>, chunks: seq<string>): seq<string>
  {
    Dedup(Candidates(text, ents, chunks))
  }

  /**
   * `extract_skills(text)`, where `entities` and `chunks` are what the
   * language model finds in `text` (`doc.ents` and `doc.noun_chunks`).
   */
  method ExtractSkills(text: string, entities: seq<Entity>, chunks: seq<string>) returns (skills: seq<string>)
    ensures skills == SkillsOf(text, entities, chunks)
    ensures NoDuplicates(skills)
  {
    var found := AddEntitySkills([], entities);
    assert found == EntitySkills(entities);
    var textLower := Lower(text);
    found := AddKeywordSkills(found, textLower, TechTerms);
    found := AddChunkSkills(found, chunks);
    assert found == Candidates(text, entities, chunks);
    skills := Dedup(found);
  }

  /** The entity loop: appends the texts of the technical entities. */
  method AddEntitySkills(found: seq<string>, entities: seq<Entity>) returns (found': seq<string>)
    ensures found' == found + EntitySkills(entities)
  {
    found' := found;
    for i := 0 to |entities|
      invariant found' == found + EntitySkills(entities[..i])
    {
      assert entities[..i + 1][..i] == entities[..i];
      var ent := entities[i];
      if ent.kind in EntityLabels {
        if ContainsAny(Lower(ent.text), EntityHints) {
          found' := found' + [ent.text];
        }
      }
    }
    assert entities[..|entities|] == entities;
  }

  /** The keyword loop: appends the title form of each of `terms` found in `textLower`. */
  method AddKeywordSkills(found: seq<string>, textLower: string, terms: seq<string>) returns (found': seq<string>)
    ensures found' == found + KeywordSkills(textLower, terms)
  {
    found' := found;
    for i := 0 to |terms|
      invariant found' == found + KeywordSkills(textLower, terms[..i])
    {
      assert terms[..i + 1][..i] == terms[..i];
      var skill := terms[i];
      if Contains(textLower, skill) {
        found' := found' + [Title(skill)];
      }
    }
    assert terms[..|terms|] == terms;
  }

  /** The noun-chunk loop: appends the chunks that look technical. */
  method AddChunkSkills(found: seq<string>, chunks: seq<string>) returns (found': seq<string>)
    ensures found' == found + ChunkSkills(chunks)
  {
    found' := found;
    for i := 0 to |chunks|
      invariant found' == found + ChunkSkills(chunks[..i])
    {
      assert chunks[..i + 1][..i] == chunks[..i];
      var chunk := chunks[i];
      if WordCount(chunk) <= MaxChunkWords && |chunk| > MinChunkLength {
        if HasUpper(chunk) || ContainsAny(Lower(chunk), TechTerms[..ChunkTermCount]) {
          found' := found' + [chunk];
        }
      }
    }
    assert chunks[..|chunks|] == chunks;
  }

  // ---------------------------------------------------------------------------
  // What each signal contributes

  lemma {:induction false} EntitySkillsIff(ents: seq<Entity>, x: string)
    ensures x in EntitySkills(ents) <==> exists j :: 0 <= j < |ents| && IsTechEntity(ents[j]) && ents[j].text == x
  {
    if ents != [] {
      var prefix := ents[..|ents| - 1];
      EntitySkillsIff(prefix, x);
      assert forall j :: 0 <= j < |prefix| ==> prefix[j] == ents[j];
    }
  }

  lemma {:induction false} KeywordSkillsIff(lower: string, terms: seq<string>, x: string)
    ensures x in KeywordSkills(lower, terms) <==> exists j :: 0 <= j < |terms| && Contains(lower, terms[j]) && Title(terms[j]) == x
  {
    if terms != [] {
      var prefix := terms[..|terms| - 1];
      KeywordSkillsIff(lower, prefix, x);
      assert forall j :: 0 <= j < |prefix| ==> prefix[j] == terms[j];
    }
  }

  lemma {:induction false} ChunkSkillsIff(chunks: seq<string>, x: string)
    ensures x in ChunkSkills(chunks) <==> exists j :: 0 <= j < |chunks| && IsTechChunk(chunks[j]) && chunks[j] == x
  {
    if chunks != [] {
      var prefix := chunks[..|chunks| - 1];
      ChunkSkillsIff(prefix, x);
      assert forall j :: 0 <= j < |prefix| ==> prefix[j] == chunks[j];
    }
  }

  /**
   * A string is among the skills exactly when one of the three signals
   * produced it: a technical entity's text, the title form of a dictionary
   * term found in the text, or a technical noun chunk.
   */
  lemma SkillsMembership(text: string, ents: seq<Entity>, chunks: seq<string>, x: string)
    ensures x in SkillsOf(text, ents, chunks)
        <==> || (exists j :: 0 <= j < |ents| && IsTechEntity(ents[j]) && ents[j].text == x)
             || (exists j :: 0 <= j < |TechTerms| && Contains(Lower(text), TechTerms[j]) && Title(TechTerms[j]) == x)
             || (exists j :: 0 <= j < |chunks| && IsTechChunk(chunks[j]) && chunks[j] == x)
  {
    EntitySkillsIff(ents, x);
    KeywordSkillsIff(Lower(text), TechTerms, x);
    ChunkSkillsIff(chunks, x);
  }

  /** Every dictionary term found in the lower-cased text shows up, title-cased, among the skills. */
  lemma KeywordSignal(text: string, ents: seq<Entity>, chunks: seq<string>, j: nat)
    requires j < |TechTerms| && Contains(Lower(text), TechTerms[j])
    ensures Title(TechTerms[j]) in SkillsOf(text, ents, chunks)
  {
    SkillsMembership(text, ents, chunks, Title(TechTerms[j]));
  }
}
