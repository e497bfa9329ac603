/** The retrieval side of the insurance chatbot (`RAGService`): the keyword ranking of the
    built-in knowledge base, the formatting of the document search's chunks, the combination
    of both contexts, the gate that refuses to answer without enough context, and the
    glossary lookup. The document search and the language model are parameters. */
module Rag {
  import opened Wrappers
  import opened Text
  import Ordering

  // ---------------------------------------------------------------------------------------
  // The built-in knowledge
  // ---------------------------------------------------------------------------------------

  datatype Article = Article(topic: string, content: string)

  /** `_load_knowledge_base` */
  const KnowledgeBase: seq<Article> := [
    Article("deductible", "A deductible is the amount you pay out of pocket before your insurance coverage kicks in. For example, if you have a $500 deductible and a claim for $2000, you pay $500 and insurance pays $1500."),
    Article("premium", "An insurance premium is the amount you pay (usually monthly or annually) to keep your insurance policy active. It's like a membership fee for your coverage."),
    Article("copay", "A copay (or copayment) is a fixed amount you pay for a covered service, typically paid at the time of service. Common for doctor visits and prescriptions."),
    Article("claim process", "The insurance claim process: 1) Submit claim with required documents, 2) Insurance reviews the claim, 3) Documents are verified, 4) Claim is approved or denied, 5) Payment is processed if approved."),
    Article("coverage", "Insurance coverage refers to the protection and benefits your policy provides. Different policies cover different events - read your policy carefully to understand what is and isn't covered."),
    Article("beneficiary", "A beneficiary is the person or entity you designate to receive insurance benefits, typically used in life insurance policies."),
    Article("exclusion", "An exclusion is a condition or circumstance that your insurance policy does not cover. Common exclusions include pre-existing conditions or intentional damage."),
    Article("claim denial", "A claim may be denied if: documents are incomplete, the incident isn't covered by your policy, you missed a filing deadline, or there are inconsistencies in your claim. You can usually appeal a denial."),
    Article("required documents", "Common required documents for claims: proof of identity, incident report (police/medical), receipts or invoices, photos of damage, proof of ownership, and completed claim forms."),
    Article("claim status", "Claim statuses: Submitted (received but not reviewed), Under Review (being processed), Additional Info Required (need more documents), Approved (claim accepted), Rejected (claim denied), Paid (payment processed).")
  ]

  /** `_load_vocabulary` */
  const Vocabulary: map<string, string> := map[
    "deductible" := "Amount you pay before insurance coverage begins",
    "premium" := "Regular payment to maintain your insurance policy",
    "copay" := "Fixed amount paid for covered services",
    "coinsurance" := "Percentage of costs you pay after deductible",
    "out-of-pocket maximum" := "Most you pay in a year; insurance pays 100% after",
    "beneficiary" := "Person designated to receive insurance benefits",
    "exclusion" := "What your policy does not cover",
    "pre-authorization" := "Approval needed before certain services",
    "claim" := "Formal request for insurance coverage/payment",
    "policyholder" := "Person who owns the insurance policy"
  ]

  // ---------------------------------------------------------------------------------------
  // _retrieve_from_knowledge_base
  // ---------------------------------------------------------------------------------------

  /** The query words longer than three characters that are also words of the article, each
      occurrence in the query counted. */
  function KeywordHits(words: seq<string>, keywords: seq<string>): (n: nat)
    ensures n <= |words|
    decreases |words|
  {
    if words == [] then 0
    else
      var w := words[|words| - 1];
      KeywordHits(words[..|words| - 1], keywords) + (if |w| > 3 && w in keywords then 1 else 0)
  }

  /** An article's relevance to the lower-cased query: 10 when its topic occurs in the query,
      plus the keyword hits. */
  function Score(queryLower: string, a: Article): nat {
    TopicBonus(queryLower, a) + KeywordHits(Words(queryLower), Words(Lower(a.content)))
  }

  function TopicBonus(queryLower: string, a: Article): nat {
    if Contains(queryLower, Lower(a.topic)) then 10 else 0
  }

  /** Hits add up over the parts of the query. */
  lemma {:induction false} KeywordHitsAppend(a: seq<string>, b: seq<string>, keywords: seq<string>)
    ensures KeywordHits(a + b, keywords) == KeywordHits(a, keywords) + KeywordHits(b, keywords)
    decreases |b|
  {
    if b == [] {
      assert a + b == a;
    } else {
      assert (a + b)[..|a + b| - 1] == a + b[..|b| - 1];
      assert (a + b)[|a + b| - 1] == b[|b| - 1];
      KeywordHitsAppend(a, b[..|b| - 1], keywords);
    }
  }

  /** So a repeated query word counts again: repeating the query doubles the hits. */
  lemma {:induction false} RepeatedWordsCountAgain(words: seq<string>, keywords: seq<string>)
    ensures KeywordHits(words + words, keywords) == 2 * KeywordHits(words, keywords)
  {
    KeywordHitsAppend(words, words, keywords);
  }

  /** A topic hit alone makes an article relevant; without one, the score is the number of
      long query words found, at most the number of query words. */
  lemma {:induction false} ScoreBounds(queryLower: string, a: Article)
    ensures Contains(queryLower, Lower(a.topic)) ==> Score(queryLower, a) >= 10
    ensures !Contains(queryLower, Lower(a.topic)) ==> Score(queryLower, a) <= |Words(queryLower)|
  {
  }

  /** The loop counting the keyword hits of the query words. */
  method CountHits(words: seq<string>, keywords: seq<string>) returns (hits: nat)
    ensures hits == KeywordHits(words, keywords)
  {
    hits := 0;
    var k := 0;
    while k < |words|
      invariant k <= |words|
      invariant hits == KeywordHits(words[..k], keywords)
    {
      assert words[..k + 1][..k] == words[..k];
      if |words[k]| > 3 && words[k] in keywords {
        hits := hits + 1;
      }
      k := k + 1;
    }
    assert words[..k] == words;
  }

  /** Scoring one article. */
  method ScoreArticle(queryLower: string, a: Article) returns (score: nat)
    ensures score == Score(queryLower, a)
  {
    var words := Words(queryLower);
    var keywords := Words(Lower(a.content));
    var hits := CountHits(words, keywords);
    score := TopicBonus(queryLower, a) + hits;
  }

  /** The `(score, article)` pairs with a positive score, in knowledge-base order. */
  function Relevant(queryLower: string, kb: seq<Article>): seq<(int, Article)>
    decreases |kb|
  {
    if kb == [] then []
    else
      var a := kb[|kb| - 1];
      Relevant(queryLower, kb[..|kb| - 1]) + (if Score(queryLower, a) > 0 then [(Score(queryLower, a) as int, a)] else [])
  }

  /** Exactly the articles with a positive score are relevant, each with its score. */
  lemma {:induction false} RelevantSpec(queryLower: string, kb: seq<Article>)
    ensures forall e :: e in Relevant(queryLower, kb) ==> e.1 in kb && e.0 == Score(queryLower, e.1) && e.0 > 0
    ensures forall a :: a in kb && Score(queryLower, a) > 0 ==> (Score(queryLower, a) as int, a) in Relevant(queryLower, kb)
    decreases |kb|
  {
    if kb != [] {
      var init := kb[..|kb| - 1];
      RelevantSpec(queryLower, init);
      forall a | a in kb && Score(queryLower, a) > 0
        ensures (Score(queryLower, a) as int, a) in Relevant(queryLower, kb)
      {
        var k :| 0 <= k < |kb| && kb[k] == a;
        if k < |kb| - 1 {
          assert init[k] == a;
        }
      }
    }
  }

  /** The loop over the knowledge base. */
  method CollectRelevant(queryLower: string, kb: seq<Article>) returns (relevant: seq<(int, Article)>)
    ensures relevant == Relevant(queryLower, kb)
  {
    relevant := [];
    var j := 0;
    while j < |kb|
      invariant j <= |kb|
      invariant relevant == Relevant(queryLower, kb[..j])
    {
      assert kb[..j + 1][..j] == kb[..j];
      var score := ScoreArticle(queryLower, kb[j]);
      if score > 0 {
        relevant := relevant + [(score as int, kb[j])];
      }
      j := j + 1;
    }
    assert kb[..j] == kb;
  }

  function Articles(xs: seq<(int, Article)>): (r: seq<Article>)
    ensures |r| == |xs| && forall i :: 0 <= i < |xs| ==> r[i] == xs[i].1
  {
    seq(|xs|, i requires 0 <= i < |xs| => xs[i].1)
  }

  /** The relevant pairs, best first; ties keep their knowledge-base order. */
  function Ranked(queryLower: string, kb: seq<Article>): seq<(int, Article)> {
    Ordering.StableSort(Relevant(queryLower, kb), Ordering.Greater)
  }

  /** The articles the context is built from: the `topK` best relevant ones, or the first
      `topK` of the knowledge base when none is relevant. */
  function Selected(query: string, kb: seq<Article>, topK: nat): seq<Article> {
    var queryLower := Lower(query);
    if Relevant(queryLower, kb) == [] then Ordering.Take(kb, topK)
    else Articles(Ordering.Take(Ranked(queryLower, kb), topK))
  }

  function Contents(selected: seq<Article>): (r: seq<string>)
    ensures |r| == |selected| && forall i :: 0 <= i < |selected| ==> r[i] == selected[i].content
  {
    seq(|selected|, i requires 0 <= i < |selected| => selected[i].content)
  }

  function KbSources(selected: seq<Article>): (r: seq<string>)
    ensures |r| == |selected| && forall i :: 0 <= i < |selected| ==> r[i] == "Knowledge Base: " + selected[i].topic
  {
    seq(|selected|, i requires 0 <= i < |selected| => "Knowledge Base: " + selected[i].topic)
  }

  /** The context and the sources `_retrieve_from_knowledge_base` returns. */
  function KnowledgeContext(query: string, kb: seq<Article>, topK: nat): (string, seq<string>) {
    var selected := Selected(query, kb, topK);
    (Join(Contents(selected), "\n\n"), KbSources(selected))
  }

  /** `_retrieve_from_knowledge_base`: the articles' contents joined by blank lines, and one
      source per selected article, in the same order. */
  method RetrieveFromKnowledgeBase(query: string, kb: seq<Article>, topK: nat) returns (context: string, sources: seq<string>)
    ensures (context, sources) == KnowledgeContext(query, kb, topK)
    ensures |sources| == |Selected(query, kb, topK)| <= topK
  {
    var queryLower := Lower(query);
    var relevant := CollectRelevant(queryLower, kb);
    var selected: seq<Article>;
    if relevant == [] {
      selected := Ordering.Take(kb, topK);
    } else {
      var ranked := Ordering.StableSort(relevant, Ordering.Greater);
      selected := Articles(Ordering.Take(ranked, topK));
    }
    context := Join(Contents(selected), "\n\n");
    sources := KbSources(selected);
  }

  /** With nothing relevant, the fallback is the head of the knowledge base. */
  lemma {:induction false} FallbackIsHead(query: string, kb: seq<Article>, topK: nat)
    requires forall a :: a in kb ==> Score(Lower(query), a) == 0
    ensures Selected(query, kb, topK) == Ordering.Take(kb, topK)
  {
    var queryLower := Lower(query);
    RelevantSpec(queryLower, kb);
    if Relevant(queryLower, kb) != [] {
      assert Relevant(queryLower, kb)[0] in Relevant(queryLower, kb);
    }
  }

  /** With some relevant article, the selection holds at most `topK` relevant articles, best
      first; every relevant article left out scores no higher than any selected one; and
      among equal scores the selection keeps knowledge-base order. */
  lemma {:induction false} RankedSelection(query: string, kb: seq<Article>, topK: nat)
    requires exists a :: a in kb && Score(Lower(query), a) > 0
    ensures var sel := Selected(query, kb, topK); var ql := Lower(query);
      && |sel| <= topK
      && (forall i :: 0 <= i < |sel| ==> sel[i] in kb && Score(ql, sel[i]) > 0)
      && (forall i, j :: 0 <= i < j < |sel| ==> Score(ql, sel[i]) >= Score(ql, sel[j]))
      && (forall a :: a in kb && Score(ql, a) > 0 ==> a in sel || forall b :: b in sel ==> Score(ql, b) >= Score(ql, a))
    ensures forall c :: Ordering.KeyRun(Ordering.Take(Ranked(Lower(query), kb), topK), c) <= Ordering.KeyRun(Relevant(Lower(query), kb), c)
  {
    var ql := Lower(query);
    var es := Relevant(ql, kb);
    RelevantSpec(ql, kb);
    var a0 :| a0 in kb && Score(ql, a0) > 0;
    assert (Score(ql, a0) as int, a0) in es;
    RankedTop(ql, kb, topK);
    TopArticles(es, Ordering.Take(Ranked(ql, kb), topK), kb, a => Score(ql, a) as int);
  }

  /** The pairs kept from the ranking: taken from the relevant ones, best first, never below
      one left out, and ties in their relevant order. */
  lemma {:induction false} RankedTop(queryLower: string, kb: seq<Article>, topK: nat)
    ensures var es := Relevant(queryLower, kb); var top := Ordering.Take(Ranked(queryLower, kb), topK);
      && (forall t :: t in top ==> t in es)
      && (forall i, j :: 0 <= i < j < |top| ==> top[i].0 >= top[j].0)
      && (forall e :: e in es ==> e in top || forall t :: t in top ==> t.0 >= e.0)
      && (forall c :: Ordering.KeyRun(top, c) <= Ordering.KeyRun(es, c))
  {
    var es := Relevant(queryLower, kb);
    Ordering.GreaterIsStrictTotalOrder();
    Ordering.StableSortCorrect(es, Ordering.Greater);
    Ordering.StableSortLength(es, Ordering.Greater);
    Ordering.TopEntries(es, Ranked(queryLower, kb), topK);
  }

  /** The articles of the top pairs, when every pair carries its article's score. */
  lemma {:induction false} TopArticles(es: seq<(int, Article)>, top: seq<(int, Article)>, kb: seq<Article>, score: Article -> int)
    requires forall e :: e in es ==> e.1 in kb && e.0 == score(e.1) && e.0 > 0
    requires forall a :: a in kb && score(a) > 0 ==> (score(a), a) in es
    requires forall t :: t in top ==> t in es
    requires forall i, j :: 0 <= i < j < |top| ==> top[i].0 >= top[j].0
    requires forall e :: e in es ==> e in top || forall t :: t in top ==> t.0 >= e.0
    ensures var sel := Articles(top);
      && (forall i :: 0 <= i < |sel| ==> sel[i] in kb && score(sel[i]) > 0)
      && (forall i, j :: 0 <= i < j < |sel| ==> score(sel[i]) >= score(sel[j]))
      && (forall a :: a in kb && score(a) > 0 ==> a in sel || forall b :: b in sel ==> score(b) >= score(a))
  {
    var sel := Articles(top);
    assert forall i :: 0 <= i < |top| ==> top[i] in top;
    forall a | a in kb && score(a) > 0
      ensures a in sel || forall b :: b in sel ==> score(b) >= score(a)
    {
      var e := (score(a), a);
      if e in top {
        var i :| 0 <= i < |top| && top[i] == e;
        assert sel[i] == a;
      } else {
        forall b | b in sel ensures score(b) >= score(a) {
          var i :| 0 <= i < |sel| && sel[i] == b;
          assert top[i] in top;
        }
      }
    }
  }

  // ---------------------------------------------------------------------------------------
  // _retrieve_from_vertex_search (the search call is a parameter)
  // ---------------------------------------------------------------------------------------

  /** A search result: its text (empty when absent) and its source metadata. */
  datatype Chunk = Chunk(content: string, source: map<string, string>)

  function Lookup(m: map<string, string>, key: string, default: string): string {
    if key in m then m[key] else default
  }

  /** `f"{filename} ({document_type})"` with "Document" and "Unknown" for missing keys. */
  function SourceRef(c: Chunk): string {
    Lookup(c.source, "filename", "Document") + " (" + Lookup(c.source, "document_type", "Unknown") + ")"
  }

  /** The context block of the chunk at position `i` of the search results. */
  function ChunkPart(i: nat, c: Chunk): string {
    "[Source " + NatToString(i + 1) + ": " + SourceRef(c) + "]\n" + c.content
  }

  /** The blocks of the chunks with content, each labelled with its position among all the
      results. */
  function ChunkParts(chunks: seq<Chunk>): (r: seq<string>)
    ensures |r| <= |chunks|
    decreases |chunks|
  {
    if chunks == [] then []
    else
      var n := |chunks| - 1;
      ChunkParts(chunks[..n]) + (if chunks[n].content != "" then [ChunkPart(n, chunks[n])] else [])
  }

  /** `if x not in xs: xs.append(x)` */
  function AddUnique(xs: seq<string>, x: string): seq<string> {
    if x in xs then xs else xs + [x]
  }

  /** The sources of the chunks with content, each once, in first-seen order. */
  function SourceRefs(chunks: seq<Chunk>): seq<string>
    decreases |chunks|
  {
    if chunks == [] then []
    else
      var n := |chunks| - 1;
      if chunks[n].content != "" then AddUnique(SourceRefs(chunks[..n]), SourceRef(chunks[n])) else SourceRefs(chunks[..n])
  }

  /** Every chunk with content has its block, under its original position. */
  lemma {:induction false} ChunkPartsComplete(chunks: seq<Chunk>)
    ensures forall k :: 0 <= k < |chunks| && chunks[k].content != "" ==> ChunkPart(k, chunks[k]) in ChunkParts(chunks)
    decreases |chunks|
  {
    if chunks != [] {
      var n := |chunks| - 1;
      var init := chunks[..n];
      ChunkPartsComplete(init);
      var tail := if chunks[n].content != "" then [ChunkPart(n, chunks[n])] else [];
      assert ChunkParts(chunks) == ChunkParts(init) + tail;
      forall k | 0 <= k < |chunks| && chunks[k].content != "" ensures ChunkPart(k, chunks[k]) in ChunkParts(chunks) {
        if k < n {
          assert init[k] == chunks[k];
          InFront(ChunkParts(init), tail, ChunkPart(k, chunks[k]));
        } else {
          assert (ChunkParts(init) + tail)[|ChunkParts(init)|] == ChunkPart(k, chunks[k]);
        }
      }
    }
  }

  lemma {:induction false} InFront<T>(a: seq<T>, b: seq<T>, x: T)
    requires x in a
    ensures x in a + b
  {
    var i :| 0 <= i < |a| && a[i] == x;
    assert (a + b)[i] == x;
  }

  /** Every block is that of a chunk with content, under the chunk's position. */
  lemma {:induction false} ChunkPartsSound(chunks: seq<Chunk>)
    ensures forall p :: p in ChunkParts(chunks) ==> exists k :: 0 <= k < |chunks| && chunks[k].content != "" && p == ChunkPart(k, chunks[k])
    decreases |chunks|
  {
    if chunks != [] {
      var n := |chunks| - 1;
      var init := chunks[..n];
      ChunkPartsSound(init);
      forall p | p in ChunkParts(chunks)
        ensures exists k :: 0 <= k < |chunks| && chunks[k].content != "" && p == ChunkPart(k, chunks[k])
      {
        if p in ChunkParts(init) {
          var k :| 0 <= k < |init| && init[k].content != "" && p == ChunkPart(k, init[k]);
          assert chunks[k] == init[k];
        }
      }
    }
  }

  /** The sources hold no duplicate. */
  lemma {:induction false} SourceRefsDistinct(chunks: seq<Chunk>)
    ensures forall i, j :: 0 <= i < j < |SourceRefs(chunks)| ==> SourceRefs(chunks)[i] != SourceRefs(chunks)[j]
    decreases |chunks|
  {
    if chunks != [] {
      SourceRefsDistinct(chunks[..|chunks| - 1]);
    }
  }

  /** Every chunk with content contributes its source. */
  lemma {:induction false} SourceRefsComplete(chunks: seq<Chunk>)
    ensures forall k :: 0 <= k < |chunks| && chunks[k].content != "" ==> SourceRef(chunks[k]) in SourceRefs(chunks)
    decreases |chunks|
  {
    if chunks != [] {
      var n := |chunks| - 1;
      var init := chunks[..n];
      SourceRefsComplete(init);
      forall k | 0 <= k < n && chunks[k].content != "" ensures SourceRef(chunks[k]) in SourceRefs(chunks) {
        assert init[k] == chunks[k];
      }
    }
  }

  /** Every source is that of a chunk with content. */
  lemma {:induction false} SourceRefsSound(chunks: seq<Chunk>)
    ensures forall x :: x in SourceRefs(chunks) ==> exists k :: 0 <= k < |chunks| && chunks[k].content != "" && x == SourceRef(chunks[k])
    decreases |chunks|
  {
    if chunks != [] {
      var n := |chunks| - 1;
      var init := chunks[..n];
      SourceRefsSound(init);
      forall x | x in SourceRefs(chunks)
        ensures exists k :: 0 <= k < |chunks| && chunks[k].content != "" && x == SourceRef(chunks[k])
      {
        if x in SourceRefs(init) {
          var k :| 0 <= k < |init| && init[k].content != "" && x == SourceRef(init[k]);
          assert chunks[k] == init[k];
        }
      }
    }
  }

  /** The context and sources of the document search: empty when the search is disabled,
      failed or found nothing. */
  function DocumentContext(chunks: Option<seq<Chunk>>): (string, seq<string>) {
    if chunks.None? || chunks.value == [] then ("", [])
    else (Join(ChunkParts(chunks.value), "\n\n"), SourceRefs(chunks.value))
  }

  /** The loop of `_retrieve_from_vertex_search` over the chunks, with `enumerate`'s index. */
  method FormatChunks(chunks: seq<Chunk>) returns (context: string, sources: seq<string>)
    ensures context == Join(ChunkParts(chunks), "\n\n") && sources == SourceRefs(chunks)
  {
    var parts: seq<string> := [];
    sources := [];
    var i := 0;
    while i < |chunks|
      invariant i <= |chunks|
      invariant parts == ChunkParts(chunks[..i]) && sources == SourceRefs(chunks[..i])
    {
      assert chunks[..i + 1][..i] == chunks[..i];
      if chunks[i].content != "" {
        var ref := SourceRef(chunks[i]);
        parts := parts + [ChunkPart(i, chunks[i])];
        if ref !in sources {
          sources := sources + [ref];
        }
      }
      i := i + 1;
    }
    assert chunks[..i] == chunks;
    context := Join(parts, "\n\n");
  }

  // ---------------------------------------------------------------------------------------
  // _combine_contexts, _has_sufficient_context, generate_response
  // ---------------------------------------------------------------------------------------

  const NoContextFound := "No relevant context found."

  /** `_combine_contexts` */
  function CombineContexts(documentContext: string, knowledgeContext: string): string {
    var parts := (if documentContext != "" then ["=== YOUR DOCUMENTS ===\n" + documentContext] else [])
      + (if knowledgeContext != "" then ["=== GENERAL INSURANCE KNOWLEDGE ===\n" + knowledgeContext] else []);
    if parts == [] then NoContextFound else Join(parts, "\n\n")
  }

  /** The placeholder appears exactly when both contexts are empty; otherwise the document
      section comes first, each under its header. */
  lemma {:induction false} CombineContextsShape(documentContext: string, knowledgeContext: string)
    ensures CombineContexts(documentContext, knowledgeContext) == NoContextFound <==> documentContext == "" && knowledgeContext == ""
    ensures documentContext != "" && knowledgeContext != "" ==>
      CombineContexts(documentContext, knowledgeContext)
        == "=== YOUR DOCUMENTS ===\n" + documentContext + "\n\n" + "=== GENERAL INSURANCE KNOWLEDGE ===\n" + knowledgeContext
    ensures documentContext == "" && knowledgeContext != "" ==>
      CombineContexts(documentContext, knowledgeContext) == "=== GENERAL INSURANCE KNOWLEDGE ===\n" + knowledgeContext
  {
    var d := "=== YOUR DOCUMENTS ===\n" + documentContext;
    var k := "=== GENERAL INSURANCE KNOWLEDGE ===\n" + knowledgeContext;
    if documentContext != "" && knowledgeContext != "" {
      assert Join([d, k], "\n\n") == d + "\n\n" + Join([k], "\n\n");
      HeaderIsNotPlaceholder(d + "\n\n" + k);
    } else if documentContext != "" {
      HeaderIsNotPlaceholder(d);
    } else if knowledgeContext != "" {
      HeaderIsNotPlaceholder(k);
    }
  }

  lemma {:induction false} HeaderIsNotPlaceholder(s: string)
    requires |s| > 0 && s[0] == '='
    ensures s != NoContextFound
  {
    assert NoContextFound[0] == 'N';
  }

  /** `_has_sufficient_context`: either context has more than 50 characters once stripped. */
  predicate HasSufficientContext(documentContext: string, knowledgeContext: string) {
    (documentContext != "" && |Strip(documentContext)| > 50)
    || (knowledgeContext != "" && |Strip(knowledgeContext)| > 50)
  }

  /** The emptiness tests add nothing: the gate is the stripped lengths alone, so blank or
      short contexts never pass. */
  lemma {:induction false} SufficientIffLong(documentContext: string, knowledgeContext: string)
    ensures HasSufficientContext(documentContext, knowledgeContext)
      <==> |Strip(documentContext)| > 50 || |Strip(knowledgeContext)| > 50
  {
    StripEmptyIffBlank("");
  }

  const NotEnoughInformation := "I don't have enough information in your documents or my knowledge base to answer this question accurately. Please upload relevant documents or rephrase your question about general insurance topics."

  /** The reply of `generate_response`, without the JSON copy of the sources. */
  datatype Reply =
    | NoContext(response: string)
    | Answer(response: string, documentSources: seq<string>, knowledgeSources: seq<string>)

  /** `generate_response`. `chunks` is what the document search returned (`None` when it is
      disabled or failed); `generate` is the language model, given the query, the combined
      context and whether there is document context, and already answering with its own
      apology when it fails. Without enough context the model is not asked. */
  method GenerateResponse(query: string, chunks: Option<seq<Chunk>>, kb: seq<Article>,
                          generate: (string, string, bool) -> string)
    returns (reply: Reply)
    ensures var (documentContext, documentSources) := DocumentContext(chunks);
      var (knowledgeContext, knowledgeSources) := KnowledgeContext(query, kb, 3);
      && (reply.NoContext? <==> !HasSufficientContext(documentContext, knowledgeContext))
      && (reply.NoContext? ==> reply.response == NotEnoughInformation)
      && (reply.Answer? ==>
            reply.response == generate(query, CombineContexts(documentContext, knowledgeContext), documentContext != "")
            && reply.documentSources == documentSources && reply.knowledgeSources == knowledgeSources)
  {
    var documentContext, documentSources := "", [];
    if chunks.Some? && chunks.value != [] {
      documentContext, documentSources := FormatChunks(chunks.value);
    }
    var knowledgeContext, knowledgeSources := RetrieveFromKnowledgeBase(query, kb, 3);
    var combined := CombineContexts(documentContext, knowledgeContext);
    if !HasSufficientContext(documentContext, knowledgeContext) {
      return NoContext(NotEnoughInformation);
    }
    var text := generate(query, combined, documentContext != "");
    reply := Answer(text, documentSources, knowledgeSources);
  }

  // ---------------------------------------------------------------------------------------
  // get_term_definition
  // ---------------------------------------------------------------------------------------

  /** `self.vocabulary.get(term.lower())` */
  function TermDefinition(vocabulary: map<string, string>, term: string): Option<string>
  {
    if Lower(term) in vocabulary then Some(vocabulary[Lower(term)]) else None
  }

  /** The lookup ignores case, and finds every term stored in lower case. */
  lemma {:induction false} TermLookupIgnoresCase(vocabulary: map<string, string>, a: string, b: string)
    requires Lower(a) == Lower(b)
    ensures TermDefinition(vocabulary, a) == TermDefinition(vocabulary, b)
  {
  }

  lemma {:induction false} StoredTermsFound(vocabulary: map<string, string>, term: string)
    requires term in vocabulary && Lower(term) == term
    ensures TermDefinition(vocabulary, term) == Some(vocabulary[term])
  {
  }

  /** A vocabulary key with an upper-case letter is never reached, whatever the term. */
  lemma {:induction false} MixedCaseKeysUnreachable(term: string, key: string)
    requires Lower(key) != key
    ensures Lower(term) != key
  {
    var t := Lower(term);
    forall i | 0 <= i < |t|
      ensures LowerChar(t[i]) == t[i]
    {
      assert t[i] == LowerChar(term[i]);
    }
    assert Lower(t) == t;
  }
}
