/** The search edge function: expand the query into keywords, fetch a share of
    the result budget for each keyword from the scraping API, merge the
    results by `uuid`, keep those with an `ementa`, and let the language
    model pick the most relevant ones.

    The three external services (keyword generation, the scraper, ranking)
    are parameters: their parsed answers are inputs of the model, and the
    handler reports which calls it made. */
module IntelligentSearch {
  import opened Wrappers
  import opened SeqOps

  /** Results requested from the scraper for one request, over all keywords
      (`LIMITE_EMENTAS_SEARCH`). */
  const CandidateBudget: nat := 100

  /** Number of results the ranker is asked for. */
  const TopK: nat := 10

  /** The `conteudo` object of a result: its summary and the other fields,
      which are passed through untouched. */
  datatype Content = Content(ementa: string, metadata: map<string, string>)

  /** One raw result of the scraping API; `conteudo` may be absent. */
  datatype Envelope = Envelope(uuid: string, conteudo: Option<Content>)

  /** A chat-completion call whose answer is expected to hold a JSON array:
      the HTTP status was not OK, the message had no content, the content had
      no bracketed array, something threw (transport, JSON or the array
      parse), or the array was parsed. */
  datatype LlmReply<T> = NotOk | NoContent | NoArray | Threw | Parsed(value: T)

  /** A scraping call: non-OK status, a thrown exception, or a JSON body whose
      `dado` field may be absent. */
  datatype ScrapeReply = ScrapeNotOk | ScrapeThrew | ScrapeBody(dado: Option<seq<Envelope>>)

  /** The scraper as this function sees it: the reply to a request for a
      keyword, a tribunal filter and a result limit. */
  type Scraper = (string, Option<seq<string>>, nat) -> ScrapeReply

  /** The external calls one request makes, in order. */
  datatype ExternalCall =
    | KeywordCall(query: string)
    | ScrapeCall(keyword: string, tribunais: Option<seq<string>>, limit: nat)
    | RankCall(candidates: seq<Content>, query: string, limit: nat)

  /** The request body: unreadable JSON, or the `query` (absent reads as
      empty) and the optional `tribunais` filter. */
  datatype SearchRequest = Malformed(message: string) | Body(query: string, tribunais: Option<seq<string>>)

  /** Status 200 with the selected contents, 400 for a missing query, 500
      with the caught error's message. */
  datatype SearchResponse = Ok(results: seq<Content>) | BadRequest(error: string) | ServerError(error: string)

  const MissingQueryError := "A consulta é obrigatória"

  /** `generateKeywords`: the parsed array when there is one, otherwise the
      query alone. */
  function GenerateKeywords(query: string, reply: LlmReply<seq<string>>): (keywords: seq<string>)
    ensures !reply.Parsed? ==> keywords == [query]
    ensures reply.Parsed? ==> keywords == reply.value
  {
    match reply
    case Parsed(value) => value
    case _ => [query]
  }

  /** Keyword generation gives no keyword at all only when the model answers
      with an empty array; every failure leaves exactly the query. */
  lemma KeywordsEmptyOnlyOnEmptyArray(query: string, reply: LlmReply<seq<string>>)
    ensures GenerateKeywords(query, reply) == [] <==> reply == Parsed([])
    ensures |GenerateKeywords(query, reply)| >= 1 || reply.Parsed?
  {
  }

  /** `Math.ceil(LIMITE_EMENTAS_SEARCH / keywords.length)`; `None` stands for
      the `Infinity` that a division by zero gives. */
  function LimitPerKeyword(count: nat): (limit: Option<nat>)
    ensures limit.None? <==> count == 0
    ensures limit.Some? ==> limit.value * count >= CandidateBudget
    ensures limit.Some? ==> (limit.value - 1) * count < CandidateBudget
  {
    if count == 0 then None
    else
      CeilingDivision(CandidateBudget, count);
      Some((CandidateBudget + count - 1) / count)
  }

  /** `q = (a + n - 1) / n` is the least `q` with `q * n >= a`. */
  lemma CeilingDivision(a: nat, n: nat)
    requires n > 0
    ensures ((a + n - 1) / n) * n >= a
    ensures ((a + n - 1) / n - 1) * n < a
  {
    var q, r := (a + n - 1) / n, (a + n - 1) % n;
    assert a + n - 1 == q * n + r && 0 <= r < n;
    assert (q - 1) * n == q * n - n;
  }

  /** `searchApi` after the call: the `dado` array, or nothing when the call
      failed or `dado` is absent. */
  function SearchApi(reply: ScrapeReply): (results: seq<Envelope>)
    ensures reply.ScrapeBody? && reply.dado.Some? ==> results == reply.dado.value
    ensures !(reply.ScrapeBody? && reply.dado.Some?) ==> results == []
  {
    match reply
    case ScrapeBody(Some(dado)) => dado
    case _ => []
  }

  /** The results of the first keywords, concatenated in keyword order. */
  function Collected(keywords: seq<string>, tribunais: Option<seq<string>>, limit: nat, scraper: Scraper): seq<Envelope>
  {
    if keywords == [] then []
    else
      var last := |keywords| - 1;
      Collected(keywords[..last], tribunais, limit, scraper) + SearchApi(scraper(keywords[last], tribunais, limit))
  }

  /** Collecting over two runs of keywords concatenates their results. */
  lemma {:induction false} CollectedAppend(k1: seq<string>, k2: seq<string>, tribunais: Option<seq<string>>, limit: nat, scraper: Scraper)
    ensures Collected(k1 + k2, tribunais, limit, scraper) ==
            Collected(k1, tribunais, limit, scraper) + Collected(k2, tribunais, limit, scraper)
  {
    if k2 == [] {
      assert k1 + k2 == k1;
    } else {
      var last := |k2| - 1;
      assert (k1 + k2)[..|k1 + k2| - 1] == k1 + k2[..last];
      CollectedAppend(k1, k2[..last], tribunais, limit, scraper);
    }
  }

  /** When every scraping call yields nothing (a non-OK status, a throw or a
      body without `dado`), nothing is collected. */
  lemma {:induction false} CollectedAllFailed(keywords: seq<string>, tribunais: Option<seq<string>>, limit: nat, scraper: Scraper)
    requires forall i :: 0 <= i < |keywords| ==> SearchApi(scraper(keywords[i], tribunais, limit)) == []
    ensures Collected(keywords, tribunais, limit, scraper) == []
  {
    if keywords != [] {
      CollectedAllFailed(keywords[..|keywords| - 1], tribunais, limit, scraper);
    }
  }

  /** The scraping calls made for the keywords, in order. */
  function ScrapeCalls(keywords: seq<string>, tribunais: Option<seq<string>>, limit: nat): (calls: seq<ExternalCall>)
    ensures |calls| == |keywords|
    ensures forall i :: 0 <= i < |keywords| ==> calls[i] == ScrapeCall(keywords[i], tribunais, limit)
  {
    seq(|keywords|, i requires 0 <= i < |keywords| => ScrapeCall(keywords[i], tribunais, limit))
  }

  /** The handler's keyword loop: one scraping call per keyword, each with the
      same per-keyword limit, and the results concatenated. */
  method CollectResults(keywords: seq<string>, tribunais: Option<seq<string>>, scraper: Scraper)
    returns (fullData: seq<Envelope>, calls: seq<ExternalCall>)
    ensures keywords == [] ==> fullData == [] && calls == []
    ensures keywords != [] ==>
      var limit := LimitPerKeyword(|keywords|).value;
      fullData == Collected(keywords, tribunais, limit, scraper) &&
      calls == ScrapeCalls(keywords, tribunais, limit)
  {
    fullData, calls := [], [];
    var limitPerKeyword := LimitPerKeyword(|keywords|);
    var i := 0;
    while i < |keywords|
      invariant 0 <= i <= |keywords|
      invariant i > 0 ==> limitPerKeyword.Some?
      invariant i > 0 ==> fullData == Collected(keywords[..i], tribunais, limitPerKeyword.value, scraper)
      invariant i > 0 ==> calls == ScrapeCalls(keywords[..i], tribunais, limitPerKeyword.value)
      invariant i == 0 ==> fullData == [] && calls == []
    {
      var limit := limitPerKeyword.value;
      var results := SearchApi(scraper(keywords[i], tribunais, limit));
      assert keywords[..i + 1][..i] == keywords[..i];
      fullData := fullData + results;
      calls := calls + [ScrapeCall(keywords[i], tribunais, limit)];
      i := i + 1;
    }
    assert keywords[..|keywords|] == keywords;
  }

  function UuidOf(e: Envelope): string { e.uuid }

  /** `Array.from(new Map(fullData.map(item => [item.uuid, item])).values())`. */
  function Deduplicate(fullData: seq<Envelope>): seq<Envelope>
  {
    MapDedupe(fullData, UuidOf)
  }

  /** After deduplication there is exactly one entry per distinct `uuid` of
      the collected results, the entries are ordered by the first occurrence
      of their `uuid`, and each carries the last result seen for it. */
  lemma DeduplicateSpec(fullData: seq<Envelope>)
    ensures forall i, j :: 0 <= i < j < |Deduplicate(fullData)| ==>
      Deduplicate(fullData)[i].uuid != Deduplicate(fullData)[j].uuid
    ensures forall u :: u in Keys(Deduplicate(fullData), UuidOf) <==> u in Keys(fullData, UuidOf)
    ensures KeepsLastValues(fullData, Deduplicate(fullData), UuidOf)
    ensures FirstOccurrenceOrder(Keys(fullData, UuidOf), Keys(Deduplicate(fullData), UuidOf))
    ensures |Deduplicate(fullData)| <= |fullData|
  {
    MapDedupeKeys(fullData, UuidOf);
    MapDedupeLastValues(fullData, UuidOf);
    MapDedupeOrder(fullData, UuidOf);
  }

  /** `item && item.ementa` on a `conteudo`: present, with a non-empty
      summary. */
  predicate HasEmenta(conteudo: Option<Content>) {
    conteudo.Some? && conteudo.value.ementa != []
  }

  function ConteudoOf(e: Envelope): Option<Content> { e.conteudo }

  /** `uniqueData.map(item => item.conteudo).filter(item => item && item.ementa)`. */
  function Clean(unique: seq<Envelope>): (cleaned: seq<Content>)
    ensures |cleaned| <= |unique|
    ensures forall c :: c in cleaned <==> c.ementa != [] && Some(c) in Keys(unique, ConteudoOf)
  {
    if unique == [] then []
    else
      assert Keys(unique[1..], ConteudoOf) == Keys(unique, ConteudoOf)[1..];
      (if HasEmenta(unique[0].conteudo) then [unique[0].conteudo.value] else []) + Clean(unique[1..])
  }

  /** Cleaning distributes over concatenation: it keeps the relative order
      of the contents it keeps. */
  lemma {:induction false} CleanAppend(a: seq<Envelope>, b: seq<Envelope>)
    ensures Clean(a + b) == Clean(a) + Clean(b)
  {
    if a == [] {
      assert a + b == b;
    } else {
      assert (a + b)[0] == a[0];
      assert (a + b)[1..] == a[1..] + b;
      CleanAppend(a[1..], b);
    }
  }

  /** `indexes.map(i => ementas[i]).filter(Boolean)`: the candidate at each
      index, in index order; an index outside the list reads `undefined` and
      is dropped. */
  function SelectByIndexes(candidates: seq<Content>, indexes: seq<int>): (selected: seq<Content>)
    ensures |selected| <= |indexes|
  {
    if indexes == [] then []
    else
      (if 0 <= indexes[0] < |candidates| then [candidates[indexes[0]]] else [])
      + SelectByIndexes(candidates, indexes[1..])
  }

  /** The indexes that fall inside a list of length `n`, in order. */
  function InRange(indexes: seq<int>, n: nat): (kept: seq<int>)
    ensures forall k :: 0 <= k < |kept| ==> 0 <= kept[k] < n
  {
    if indexes == [] then []
    else (if 0 <= indexes[0] < n then [indexes[0]] else []) + InRange(indexes[1..], n)
  }

  /** The ranked list holds, position by position, the candidate at each
      in-range index: out-of-range indexes are dropped, repeated ones are
      kept, and nothing is truncated. */
  lemma {:induction false} SelectByIndexesSpec(candidates: seq<Content>, indexes: seq<int>)
    ensures |SelectByIndexes(candidates, indexes)| == |InRange(indexes, |candidates|)|
    ensures forall k :: 0 <= k < |InRange(indexes, |candidates|)| ==>
      SelectByIndexes(candidates, indexes)[k] == candidates[InRange(indexes, |candidates|)[k]]
  {
    if indexes != [] {
      var n := |candidates|;
      SelectByIndexesSpec(candidates, indexes[1..]);
      var sel, kept := SelectByIndexes(candidates, indexes[1..]), InRange(indexes[1..], n);
      if 0 <= indexes[0] < n {
        assert SelectByIndexes(candidates, indexes) == [candidates[indexes[0]]] + sel;
        assert InRange(indexes, n) == [indexes[0]] + kept;
      } else {
        assert SelectByIndexes(candidates, indexes) == sel;
        assert InRange(indexes, n) == kept;
      }
    }
  }

  /** The kept indexes appear among the returned ones in the same order. */
  lemma {:induction false} InRangeSubsequence(indexes: seq<int>, n: nat)
    ensures IsSubsequence(InRange(indexes, n), indexes)
  {
    if indexes != [] {
      InRangeSubsequence(indexes[1..], n);
      var rest := InRange(indexes[1..], n);
      if 0 <= indexes[0] < n {
        assert InRange(indexes, n) == [indexes[0]] + rest;
        assert ([indexes[0]] + rest)[1..] == rest;
      } else {
        assert InRange(indexes, n) == rest;
        if rest != [] {
          assert 0 <= rest[0] < n;
        }
      }
    }
  }

  /** Every in-range index survives as often as it was returned, and no
      out-of-range index survives. */
  lemma {:induction false} InRangeCounts(indexes: seq<int>, n: nat)
    ensures forall v :: multiset(InRange(indexes, n))[v] == if 0 <= v < n then multiset(indexes)[v] else 0
  {
    if indexes != [] {
      InRangeCounts(indexes[1..], n);
      assert indexes == [indexes[0]] + indexes[1..];
    }
  }

  /** When every index is in range, none is dropped. */
  lemma {:induction false} InRangeKeepsValid(indexes: seq<int>, n: nat)
    requires forall i :: 0 <= i < |indexes| ==> 0 <= indexes[i] < n
    ensures InRange(indexes, n) == indexes
  {
    if indexes != [] {
      InRangeKeepsValid(indexes[1..], n);
      assert [indexes[0]] + indexes[1..] == indexes;
    }
  }

  /** `ementas.slice(0, limit)`. */
  function Prefix<T>(s: seq<T>, limit: nat): (p: seq<T>)
    ensures |p| == if limit < |s| then limit else |s|
    ensures p <= s
  {
    if limit < |s| then s[..limit] else s
  }

  /** `findRelevantEmentas`: the model's choice when it answered with an
      index array, otherwise the first `limit` candidates. */
  function FindRelevant(candidates: seq<Content>, reply: LlmReply<seq<int>>, limit: nat): (ranked: seq<Content>)
    ensures !reply.Parsed? ==> ranked == Prefix(candidates, limit)
    ensures reply.Parsed? ==> ranked == SelectByIndexes(candidates, reply.value)
  {
    match reply
    case Parsed(indexes) => SelectByIndexes(candidates, indexes)
    case _ => Prefix(candidates, limit)
  }

  /** The model's answer is not cut to the requested count: eleven in-range
      indexes give eleven results for a limit of ten. */
  lemma RankedNotTruncated(c: Content)
    ensures |FindRelevant([c], Parsed(seq(11, _ => 0)), TopK)| == 11 > TopK
  {
    var indexes := seq(11, _ => 0);
    SelectByIndexesSpec([c], indexes);
    InRangeKeepsValid(indexes, 1);
  }

  /** An empty index array gives an empty answer although candidates exist:
      there is no fallback for it. */
  lemma RankedEmptyOnEmptyArray(candidates: seq<Content>)
    ensures FindRelevant(candidates, Parsed([]), TopK) == []
  {
  }

  /** The candidates that reach ranking for a well-formed, non-empty query. */
  function Candidates(query: string, tribunais: Option<seq<string>>, keywordReply: LlmReply<seq<string>>, scraper: Scraper): seq<Content>
  {
    var keywords := GenerateKeywords(query, keywordReply);
    if keywords == [] then []
    else Clean(Deduplicate(Collected(keywords, tribunais, LimitPerKeyword(|keywords|).value, scraper)))
  }

  /** The `serve` handler (CORS preflight left out). */
  method Serve(req: SearchRequest, keywordReply: LlmReply<seq<string>>, scraper: Scraper, rankReply: LlmReply<seq<int>>)
    returns (resp: SearchResponse, calls: seq<ExternalCall>)
    ensures req.Malformed? ==> resp == ServerError(req.message) && calls == []
    ensures req.Body? && req.query == [] ==> resp == BadRequest(MissingQueryError) && calls == []
    ensures req.Body? && req.query != [] ==>
      var keywords := GenerateKeywords(req.query, keywordReply);
      var cands := Candidates(req.query, req.tribunais, keywordReply, scraper);
      && calls == [KeywordCall(req.query)]
                  + (if keywords == [] then [] else ScrapeCalls(keywords, req.tribunais, LimitPerKeyword(|keywords|).value))
                  + (if cands == [] then [] else [RankCall(cands, req.query, TopK)])
      && resp == Ok(if cands == [] then [] else FindRelevant(cands, rankReply, TopK))
  {
    match req
    case Malformed(message) =>
      return ServerError(message), [];
    case Body(query, tribunais) =>
      if query == [] {
        return BadRequest(MissingQueryError), [];
      }
      calls := [KeywordCall(query)];
      var keywords := GenerateKeywords(query, keywordReply);
      var fullData, scrapeCalls := CollectResults(keywords, tribunais, scraper);
      calls := calls + scrapeCalls;
      var uniqueData := Deduplicate(fullData);
      var cleanedData := Clean(uniqueData);
      if cleanedData == [] {
        return Ok([]), calls;
      }
      calls := calls + [RankCall(cleanedData, query, TopK)];
      var relevant := FindRelevant(cleanedData, rankReply, TopK);
      resp := Ok(relevant);
  }

  /** With every scraping call yielding nothing, a non-empty query is
      answered with a successful empty list and the ranker is never called. */
  lemma AllScrapesFailedGivesEmpty(query: string, tribunais: Option<seq<string>>, keywordReply: LlmReply<seq<string>>, scraper: Scraper)
    requires forall k: string, l: nat :: SearchApi(scraper(k, tribunais, l)) == []
    ensures Candidates(query, tribunais, keywordReply, scraper) == []
  {
    var keywords := GenerateKeywords(query, keywordReply);
    if keywords != [] {
      var limit := LimitPerKeyword(|keywords|).value;
      CollectedAllFailed(keywords, tribunais, limit, scraper);
    }
  }

  /** When ranking fails, the answer is the first `min(10, n)` candidates in
      their cleaned order, so never empty when candidates exist. */
  lemma FallbackKeepsOrder(cands: seq<Content>, rankReply: LlmReply<seq<int>>)
    requires !rankReply.Parsed?
    ensures |FindRelevant(cands, rankReply, TopK)| == if |cands| < TopK then |cands| else TopK
    ensures forall k :: 0 <= k < |FindRelevant(cands, rankReply, TopK)| ==> FindRelevant(cands, rankReply, TopK)[k] == cands[k]
  {
  }
}
