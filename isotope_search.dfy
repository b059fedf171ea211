/**
 * The search of isotopes_database/isotope_search.py: the query is stripped and
 * lower-cased; an empty query shows a prompt, otherwise every record whose lower-cased
 * name or symbol contains the query is listed, in database order.
 */
module IsotopeSearch {
  import opened Strings
  import opened IsotopeDatabase

  /** What the search screen shows. */
  datatype SearchScreen =
    | StartTyping                      // the query is empty after stripping
    | NoMatch                          // a search was made and found nothing
    | Results(found: seq<Isotope>)     // the matching records, never empty

  function NormalizeQuery(raw: string): string {
    Lower(Strip(raw))
  }

  /** The condition of the list comprehension. */
  predicate Matches(query: string, iso: Isotope) {
    Contains(Lower(iso.name), query) || Contains(Lower(iso.symbol), query)
  }

  /** `[i for i in data if query in i['name'].lower() or query in i['symbol'].lower()]` */
  function Found(query: string, data: seq<Isotope>): seq<Isotope> {
    if |data| == 0 then []
    else if Matches(query, data[0]) then [data[0]] + Found(query, data[1..])
    else Found(query, data[1..])
  }

  /** isotope_searcher, without the rendering of each record. */
  function IsotopeSearcher(rawQuery: string, data: seq<Isotope>): (r: SearchScreen)
    ensures r.Results? ==> |r.found| > 0
  {
    var query := NormalizeQuery(rawQuery);
    if |query| == 0 then StartTyping
    else
      var found := Found(query, data);
      if |found| == 0 then NoMatch else Results(found)
  }

  /** `a` occurs in `b` in order, possibly with gaps. */
  predicate IsSubsequence(a: seq<Isotope>, b: seq<Isotope>) {
    if |a| == 0 then true
    else if |b| == 0 then false
    else if a[0] == b[0] then IsSubsequence(a[1..], b[1..])
    else IsSubsequence(a, b[1..])
  }

  /** Soundness: every record found is in the database and matches the query. */
  lemma {:induction false} FoundSound(query: string, data: seq<Isotope>)
    ensures forall x :: x in Found(query, data) ==> x in data && Matches(query, x)
  {
    if |data| > 0 {
      FoundSound(query, data[1..]);
    }
  }

  /** Completeness: every matching record of the database is found. */
  lemma {:induction false} FoundComplete(query: string, data: seq<Isotope>)
    ensures forall x :: x in data && Matches(query, x) ==> x in Found(query, data)
  {
    if |data| > 0 {
      FoundComplete(query, data[1..]);
      assert forall x :: x in data ==> x == data[0] || x in data[1..];
    }
  }

  /** The records found keep the order of the database. */
  lemma {:induction false} FoundInDatabaseOrder(query: string, data: seq<Isotope>)
    ensures IsSubsequence(Found(query, data), data)
  {
    if |data| > 0 {
      var rest := Found(query, data[1..]);
      FoundInDatabaseOrder(query, data[1..]);
      if !Matches(query, data[0]) && |rest| > 0 {
        FoundSound(query, data[1..]);
        assert rest[0] in rest;
        assert rest[0] != data[0];
      }
    }
  }

  /** The filter keeps each matching record as often as the database holds it, and no other. */
  lemma {:induction false} FoundMultiplicity(query: string, data: seq<Isotope>, x: Isotope)
    ensures multiset(Found(query, data))[x] == if Matches(query, x) then multiset(data)[x] else 0
  {
    if |data| > 0 {
      FoundMultiplicity(query, data[1..], x);
      assert data == [data[0]] + data[1..];
    }
  }

  /** An empty or whitespace-only query searches nothing and shows the prompt. */
  lemma BlankQueryPrompts(rawQuery: string, data: seq<Isotope>)
    ensures IsotopeSearcher(rawQuery, data) == StartTyping <==> AllSpace(rawQuery)
  {
    StripEmptyIffAllSpace(rawQuery);
  }

  /** With a non-blank query the screen lists exactly the matching records, or says none match. */
  lemma SearchScreenContents(rawQuery: string, data: seq<Isotope>, x: Isotope)
    requires !AllSpace(rawQuery)
    ensures IsotopeSearcher(rawQuery, data).Results? ==>
      (x in IsotopeSearcher(rawQuery, data).found <==> x in data && Matches(NormalizeQuery(rawQuery), x))
    ensures IsotopeSearcher(rawQuery, data) == NoMatch <==>
      forall y :: y in data ==> !Matches(NormalizeQuery(rawQuery), y)
  {
    StripEmptyIffAllSpace(rawQuery);
    var q := NormalizeQuery(rawQuery);
    FoundSound(q, data);
    FoundComplete(q, data);
    if |Found(q, data)| > 0 {
      assert Found(q, data)[0] in Found(q, data);
    }
  }

  /** Queries that differ only in letter case give the same screen. */
  lemma QueryCaseIgnored(q1: string, q2: string, data: seq<Isotope>)
    requires Lower(q1) == Lower(q2)
    ensures IsotopeSearcher(q1, data) == IsotopeSearcher(q2, data)
  {
    LowerStrip(q1);
    LowerStrip(q2);
    assert NormalizeQuery(q1) == NormalizeQuery(q2);
  }
}
