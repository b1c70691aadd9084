/**
 * The duplicate-detection part of the AI microservice's ticket analysis.
 *
 * The service keeps, across requests, a bounded FIFO cache of recent tickets
 * as two parallel lists: the descriptions and their embedding vectors. Each
 * request compares the new ticket's vector with every cached vector, rounds
 * the largest cosine similarity to two decimals, and calls the ticket a
 * duplicate when that rounded value is strictly above 0.90. Only a ticket
 * that is not a duplicate is added to the cache, and once the cache holds
 * more than 50 entries its oldest entry is dropped.
 *
 * Embeddings are values of an arbitrary type `V` and cosine similarity is a
 * function `(V, V) -> real` fixed when the cache is created. Rounded
 * similarities are integers counted in hundredths (0.93 is 93).
 */
module TicketAnalysis {
  import opened Wrappers

  /** Capacity of the recent-ticket cache. */
  const CacheSize: nat := 50

  /** A rounded similarity strictly above this many hundredths marks a duplicate. */
  const DuplicateThreshold: int := 90

  /**
   * The response of one analysis. The category and entity map come from the
   * classifier and the named-entity recogniser; `duplicateScore` is the
   * rounded maximum similarity in hundredths, present only for a duplicate.
   */
  datatype AnalysisResult = AnalysisResult(
    category: string,
    entities: map<string, string>,
    isDuplicate: bool,
    duplicateScore: Option<int>)

  // ---------------------------------------------------------------------
  // Rounding to two decimals
  // ---------------------------------------------------------------------

  /** The integer nearest to `y`, ties going to the even neighbour (Python's rounding rule). */
  function RoundHalfEven(y: real): (n: int)
    ensures -0.5 <= n as real - y <= 0.5
    ensures (n as real - y == 0.5 || y - n as real == 0.5) ==> n % 2 == 0
  {
    var f := y.Floor;
    var frac := y - f as real;
    if frac < 0.5 then f
    else if frac > 0.5 then f + 1
    else if f % 2 == 0 then f
    else f + 1
  }

  /** `round(x, 2)`, expressed in hundredths. */
  function RoundHundredths(x: real): (h: int)
    ensures -0.5 <= h as real - 100.0 * x <= 0.5
  {
    RoundHalfEven(100.0 * x)
  }

  /** Rounding never reverses the order of two similarities. */
  lemma RoundHundredthsMonotone(x: real, y: real)
    requires x <= y
    ensures RoundHundredths(x) <= RoundHundredths(y)
  {
  }

  /**
   * The rounded value is above 0.90 exactly when the unrounded value is above
   * 0.905, so a similarity of 0.901 is not above the threshold. The real
   * number 0.905 itself is a tie that rounds to the even 90; no float
   * similarity equals it exactly.
   */
  lemma RoundedAboveThresholdIff(x: real)
    ensures RoundHundredths(x) > DuplicateThreshold <==> x > 0.905
  {
  }

  // ---------------------------------------------------------------------
  // Similarity against the cache
  // ---------------------------------------------------------------------

  /** The largest similarity between `v` and any cached vector (`torch.max` over the similarities). */
  function MaxSimilarity<V>(v: V, cached: seq<V>, similarity: (V, V) -> real): (m: real)
    requires cached != []
    ensures forall i {:trigger similarity(v, cached[i])} :: 0 <= i < |cached| ==> similarity(v, cached[i]) <= m
    ensures exists i {:trigger similarity(v, cached[i])} :: 0 <= i < |cached| && similarity(v, cached[i]) == m
    decreases |cached|
  {
    if |cached| == 1 then similarity(v, cached[0])
    else
      var first, rest := similarity(v, cached[0]), MaxSimilarity(v, cached[1..], similarity);
      assert forall i :: 1 <= i < |cached| ==> cached[i] == cached[1..][i - 1];
      if first >= rest then first else rest
  }

  /** Rounding the maximum gives the largest of the individually rounded similarities. */
  lemma RoundingKeepsMaximum<V>(v: V, cached: seq<V>, similarity: (V, V) -> real)
    requires cached != []
    ensures forall i {:trigger RoundHundredths(similarity(v, cached[i]))} :: 0 <= i < |cached| ==>
      RoundHundredths(similarity(v, cached[i])) <= RoundHundredths(MaxSimilarity(v, cached, similarity))
    ensures exists i {:trigger RoundHundredths(similarity(v, cached[i]))} :: (0 <= i < |cached| &&
      RoundHundredths(similarity(v, cached[i])) == RoundHundredths(MaxSimilarity(v, cached, similarity)))
  {
    var m := MaxSimilarity(v, cached, similarity);
    var k :| 0 <= k < |cached| && similarity(v, cached[k]) == m;
    forall i | 0 <= i < |cached|
      ensures RoundHundredths(similarity(v, cached[i])) <= RoundHundredths(m)
    {
      RoundHundredthsMonotone(similarity(v, cached[i]), m);
    }
    assert RoundHundredths(similarity(v, cached[k])) == RoundHundredths(m);
  }

  /**
   * The maximum similarity rounded to two decimals, in hundredths: the
   * largest rounded similarity of any cached ticket.
   */
  function RoundedMaxSimilarity<V>(v: V, cached: seq<V>, similarity: (V, V) -> real): (h: int)
    requires cached != []
    ensures forall i {:trigger RoundHundredths(similarity(v, cached[i]))} :: 0 <= i < |cached| ==> RoundHundredths(similarity(v, cached[i])) <= h
    ensures exists i {:trigger RoundHundredths(similarity(v, cached[i]))} :: 0 <= i < |cached| && RoundHundredths(similarity(v, cached[i])) == h
  {
    RoundingKeepsMaximum(v, cached, similarity);
    RoundHundredths(MaxSimilarity(v, cached, similarity))
  }

  /**
   * The duplicate judgment of the service: a non-empty cache and a rounded
   * maximum above 0.90. Taking the maximum before rounding, as the service
   * does, makes this the same as asking whether any single cached ticket is,
   * after rounding, more than 0.90 similar; an empty cache never holds a
   * duplicate.
   */
  predicate IsDuplicate<V>(v: V, cached: seq<V>, similarity: (V, V) -> real)
    ensures IsDuplicate(v, cached, similarity) <==>
      exists i {:trigger RoundHundredths(similarity(v, cached[i]))} :: 0 <= i < |cached| && RoundHundredths(similarity(v, cached[i])) > DuplicateThreshold
  {
    cached != [] && RoundedMaxSimilarity(v, cached, similarity) > DuplicateThreshold
  }

  /** In terms of the unrounded similarities: a duplicate is a cached ticket more than 0.905 similar. */
  lemma DuplicateIffRawAbove<V>(v: V, cached: seq<V>, similarity: (V, V) -> real)
    ensures IsDuplicate(v, cached, similarity) <==>
      exists i :: 0 <= i < |cached| && similarity(v, cached[i]) > 0.905
  {
    if cached != [] {
      var m := MaxSimilarity(v, cached, similarity);
      RoundedAboveThresholdIff(m);
      if m > 0.905 {
        var k :| 0 <= k < |cached| && similarity(v, cached[k]) == m;
        assert similarity(v, cached[k]) > 0.905;
      }
    }
  }

  /** A maximum similarity of exactly 0.90, or of 0.901, is not a duplicate. */
  lemma ThresholdIsExclusive<V>(v: V, cached: seq<V>, similarity: (V, V) -> real)
    requires cached != []
    requires MaxSimilarity(v, cached, similarity) == 0.90 || MaxSimilarity(v, cached, similarity) == 0.901
    ensures !IsDuplicate(v, cached, similarity)
  {
    RoundedAboveThresholdIff(MaxSimilarity(v, cached, similarity));
  }

  // ---------------------------------------------------------------------
  // The append-and-evict policy
  // ---------------------------------------------------------------------

  /**
   * Append `x` to a cache list and, when the list has grown past the
   * capacity, drop its first (oldest) element.
   */
  function Admit<T>(s: seq<T>, x: T): (r: seq<T>)
    ensures |r| == if |s| < CacheSize then |s| + 1 else |s|
    ensures r[|r| - 1] == x
    ensures r[..|r| - 1] == s[|s| + 1 - |r|..]
  {
    var appended := s + [x];
    if |appended| > CacheSize then appended[1..] else appended
  }

  /** The first ticket admitted into an empty cache is its only entry. */
  lemma AdmitIntoEmpty<T>(x: T)
    ensures Admit([], x) == [x]
  {
    assert [] + [x] == [x];
  }

  /** The newest `CacheSize` elements of `s`, in their original order. */
  function Newest<T>(s: seq<T>): (r: seq<T>)
  {
    if |s| <= CacheSize then s else s[|s| - CacheSize..]
  }

  /** Dropping a prefix that leaves at least `CacheSize` elements does not change the newest ones. */
  lemma NewestOfSuffix<T>(t: seq<T>, k: nat)
    requires k + CacheSize <= |t|
    ensures Newest(t[k..]) == Newest(t)
  {
    var n := |t| - CacheSize;
    assert Newest(t) == t[n..];
    assert t[k..][n - k..] == t[n..];
  }

  /** Keeping the newest elements twice in a row is the same as keeping them once at the end. */
  lemma NewestOfNewest<T>(u: seq<T>, v: seq<T>)
    ensures Newest(Newest(u) + v) == Newest(u + v)
  {
    if |u| > CacheSize {
      var k := |u| - CacheSize;
      assert Newest(u) == u[k..];
      assert u[k..] + v == (u + v)[k..];
      NewestOfSuffix(u + v, k);
    }
  }

  /** Admitting a new element into a cache list within capacity keeps the newest elements. */
  lemma AdmitKeepsNewest<T>(s: seq<T>, x: T)
    requires |s| <= CacheSize
    ensures Admit(s, x) == Newest(s + [x])
  {
  }

  /** A run of admissions, one per ticket that was not a duplicate, oldest first. */
  function AdmitAll<T>(s: seq<T>, xs: seq<T>): seq<T>
    decreases |xs|
  {
    if xs == [] then s else AdmitAll(Admit(s, xs[0]), xs[1..])
  }

  /**
   * After any run of admissions the cache list holds exactly the newest
   * `CacheSize` of all admitted elements, oldest first.
   */
  lemma {:induction false} AdmitAllKeepsNewest<T>(s: seq<T>, xs: seq<T>)
    requires |s| <= CacheSize
    ensures AdmitAll(s, xs) == Newest(s + xs)
    decreases |xs|
  {
    if xs == [] {
      assert s + xs == s;
    } else {
      var x, rest := xs[0], xs[1..];
      var s' := Admit(s, x);
      AdmitKeepsNewest(s, x);
      AdmitAllKeepsNewest(s', rest);
      NewestOfNewest(s + [x], rest);
      assert xs == [x] + rest;
      assert s + [x] + rest == s + xs;
    }
  }

  /**
   * Admitting 51 tickets into an empty cache evicts the first and keeps the
   * second to the 51st, in order; when the tickets are distinct the first
   * is no longer present.
   */
  lemma OverflowEvictsFirst<T>(xs: seq<T>)
    requires |xs| == CacheSize + 1
    ensures AdmitAll([], xs) == xs[1..]
    ensures (forall i :: 1 <= i < |xs| ==> xs[i] != xs[0]) ==> xs[0] !in AdmitAll([], xs)
  {
    var r := AdmitAll([], xs);
    AdmitAllKeepsNewest([], xs);
    assert [] + xs == xs;
    assert r == xs[1..];
    if xs[0] in r {
      var j :| 0 <= j < |r| && r[j] == xs[0];
      assert xs[j + 1] == xs[0];
    }
  }

  // ---------------------------------------------------------------------
  // The two parallel lists as one list of pairs
  // ---------------------------------------------------------------------

  /** Pairs up the i-th description with the i-th vector. */
  function Zip<A, B>(a: seq<A>, b: seq<B>): (r: seq<(A, B)>)
    requires |a| == |b|
    ensures |r| == |a|
    ensures forall i :: 0 <= i < |r| ==> r[i] == (a[i], b[i])
  {
    seq(|a|, i requires 0 <= i < |a| => (a[i], b[i]))
  }

  lemma ZipAppend<A, B>(a: seq<A>, b: seq<B>, x: A, y: B)
    requires |a| == |b|
    ensures Zip(a + [x], b + [y]) == Zip(a, b) + [(x, y)]
  {
    var l, r := Zip(a + [x], b + [y]), Zip(a, b) + [(x, y)];
    forall i | 0 <= i < |l| ensures l[i] == r[i] {
      if i < |a| {
        assert (a + [x])[i] == a[i] && (b + [y])[i] == b[i];
      }
    }
  }

  lemma ZipDropFirst<A, B>(a: seq<A>, b: seq<B>)
    requires |a| == |b| > 0
    ensures Zip(a[1..], b[1..]) == Zip(a, b)[1..]
  {
  }

  /** Admitting into both lists in step is admitting the pair into the list of pairs. */
  lemma AdmitZip<A, B>(a: seq<A>, b: seq<B>, x: A, y: B)
    requires |a| == |b|
    ensures |Admit(a, x)| == |Admit(b, y)|
    ensures Zip(Admit(a, x), Admit(b, y)) == Admit(Zip(a, b), (x, y))
  {
    ZipAppend(a, b, x, y);
    if |a| + 1 > CacheSize {
      ZipDropFirst(a + [x], b + [y]);
    }
  }

  // ---------------------------------------------------------------------
  // The cache and the analysis request
  // ---------------------------------------------------------------------

  /** The module-level cache of recent tickets, with the similarity measure the service uses. */
  class RecentTicketsCache<V> {
    var descriptions: seq<string>
    var vectors: seq<V>
    const similarity: (V, V) -> real

    /** The two lists run in parallel and the cache never holds more than `CacheSize` tickets. */
    ghost predicate Valid()
      reads this
    {
      |descriptions| == |vectors| <= CacheSize
    }

    /** The cached tickets, oldest first, each description paired with its own vector. */
    ghost function Entries(): (e: seq<(string, V)>)
      reads this
      requires Valid()
      ensures |e| == |descriptions|
    {
      Zip(descriptions, vectors)
    }

    /** The cache as the service starts: empty. */
    constructor (similarity: (V, V) -> real)
      ensures Valid()
      ensures descriptions == [] && vectors == []
      ensures this.similarity == similarity
    {
      descriptions, vectors := [], [];
      this.similarity := similarity;
    }

    /**
     * The duplicate judgment of one request, against the cache as it stands:
     * the rounded maximum similarity (0 for an empty cache) and whether it is
     * above 0.90.
     */
    method CheckDuplicate(vector: V) returns (isDuplicate: bool, maxSimilarity: int)
      ensures isDuplicate == IsDuplicate(vector, vectors, similarity)
      ensures maxSimilarity == if vectors == [] then 0 else RoundedMaxSimilarity(vector, vectors, similarity)
    {
      isDuplicate := false;
      maxSimilarity := 0;

      if vectors != [] {
        maxSimilarity := RoundedMaxSimilarity(vector, vectors, similarity);
        if maxSimilarity > DuplicateThreshold {
          isDuplicate := true;
        }
      }
    }

    /**
     * Caches a ticket that is not a duplicate: both lists are appended to and,
     * past the capacity, both lose their oldest element.
     */
    method Register(description: string, vector: V)
      requires Valid()
      modifies this
      ensures Valid()
      ensures descriptions == Admit(old(descriptions), description)
      ensures vectors == Admit(old(vectors), vector)
      ensures Entries() == Admit(old(Entries()), (description, vector))
    {
      AdmitZip(descriptions, vectors, description, vector);
      descriptions := descriptions + [description];
      vectors := vectors + [vector];
      if |descriptions| > CacheSize {
        descriptions := descriptions[1..];
        vectors := vectors[1..];
      }
    }

    /**
     * One analysis request. `category` and `entities` are what the classifier
     * and the entity recogniser produced for `description`, and `vector` is
     * its embedding.
     */
    method AnalyzeTicket(category: string, entities: map<string, string>, description: string, vector: V)
      returns (r: AnalysisResult)
      requires Valid()
      modifies this
      ensures Valid()
      ensures r.category == category && r.entities == entities
      ensures r.isDuplicate == IsDuplicate(vector, old(vectors), similarity)
      ensures r.duplicateScore.Some? <==> r.isDuplicate
      ensures r.isDuplicate ==> r.duplicateScore == Some(RoundedMaxSimilarity(vector, old(vectors), similarity))
      ensures old(vectors) == [] ==> !r.isDuplicate && descriptions == [description] && vectors == [vector]
      ensures r.isDuplicate ==> descriptions == old(descriptions) && vectors == old(vectors)
      ensures !r.isDuplicate ==> descriptions == Admit(old(descriptions), description)
      ensures !r.isDuplicate ==> vectors == Admit(old(vectors), vector)
      ensures !r.isDuplicate ==> Entries() == Admit(old(Entries()), (description, vector))
    {
      var isDuplicate, maxSimilarity := CheckDuplicate(vector);

      if !isDuplicate {
        if vectors == [] {
          AdmitIntoEmpty(description);
          AdmitIntoEmpty(vector);
        }
        Register(description, vector);
      }

      r := AnalysisResult(category, entities, isDuplicate, if isDuplicate then Some(maxSimilarity) else None);
    }
  }

  /**
   * The same ticket submitted twice into a fresh cache: the first is admitted,
   * the second, whose vector is its own closest match, is reported as a
   * duplicate with a score above 0.90 and leaves the cache as it was.
   */
  method SubmitTwice<V>(similarity: (V, V) -> real, description: string, vector: V)
    returns (first: AnalysisResult, second: AnalysisResult, cached: seq<string>)
    requires similarity(vector, vector) > 0.905
    ensures !first.isDuplicate && first.duplicateScore == None
    ensures second.isDuplicate
    ensures second.duplicateScore.Some? && second.duplicateScore.value > DuplicateThreshold
    ensures cached == [description]
  {
    var cache := new RecentTicketsCache(similarity);
    first := cache.AnalyzeTicket("", map[], description, vector);
    DuplicateIffRawAbove(vector, [vector], similarity);
    assert [vector][0] == vector;
    second := cache.AnalyzeTicket("", map[], description, vector);
    cached := cache.descriptions;
  }
}
