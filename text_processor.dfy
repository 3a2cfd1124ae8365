/**
 * The text processor of one crawler: content fingerprints over normalised
 * 100000-character chunks, the bounded ledger of fingerprints already seen,
 * and keyword extraction with its frequency-ranking fallback.
 *
 * MD5, the spaCy entity recogniser and the TF-IDF vectoriser are foreign
 * code; they are the uninterpreted collaborators of `Collaborators`.
 * A digest is the 128-bit MD5 value as a number (`hexdigest` is a bijective
 * rendering of it).
 */
module TextProcessing {
  import opened Wrappers
  import opened Strings
  import opened Seqs

  const ChunkSize: nat := 100000
  const MaxHashes: nat := 10000
  const DefaultTopN: nat := 10

  type Digest = nat

  datatype Collaborators = Collaborators(
    /** MD5 of the UTF-8 encoding of everything fed to one hasher. */
    md5: string -> Digest,
    /** Where a digest sits in the iteration order of a Python set (its hash-table slot). */
    slot: Digest -> nat,
    /** spaCy named entities of a text, by label. */
    entities: string -> map<string, seq<string>>,
    /** The TF-IDF top-`n` keywords of one chunk, or None when the vectoriser raises. */
    tfidf: (string, nat) -> Option<seq<string>>)

  datatype Processed = Processed(entities: map<string, seq<string>>, keywords: seq<string>, contentHash: Digest)

  // ---------------------------------------------------------------------------
  // Fingerprints

  /** `range(0, len(text), chunk_size)` slices. */
  function Chunks(text: string): (cs: seq<string>)
    ensures forall k :: 0 <= k < |cs| ==> 0 < |cs[k]| <= ChunkSize
    decreases |text|
  {
    if text == [] then []
    else if |text| <= ChunkSize then [text]
    else [text[..ChunkSize]] + Chunks(text[ChunkSize..])
  }

  /** `' '.join(chunk.lower().split())`. */
  function Normalize(chunk: string): string {
    JoinWith(Words(LowerStr(chunk)), ' ')
  }

  /** What the hasher is fed: the normalised chunks, back to back. */
  function NormalizedStream(chunks: seq<string>): string {
    if chunks == [] then [] else Normalize(chunks[0]) + NormalizedStream(chunks[1..])
  }

  /** `calculate_content_hash`. */
  function ContentHash(co: Collaborators, text: string): Digest {
    co.md5(NormalizedStream(Chunks(text)))
  }

  /** A text within one chunk is fingerprinted by its normalised form. */
  lemma ShortTextHash(co: Collaborators, text: string)
    requires |text| <= ChunkSize
    ensures ContentHash(co, text) == co.md5(Normalize(text))
  {
    if text != [] {
      StreamOfOneChunk(text);
    }
  }

  lemma StreamOfOneChunk(text: string)
    requires 0 < |text| <= ChunkSize
    ensures NormalizedStream(Chunks(text)) == Normalize(text)
  {
    assert Chunks(text) == [text];
    assert NormalizedStream([text]) == Normalize(text) by {
      assert [text][1..] == [];
      assert NormalizedStream([text]) == Normalize(text) + NormalizedStream([]);
    }
  }

  /**
   * Texts under one chunk that differ only in letter case and in how their
   * words are separated by whitespace have the same fingerprint.
   */
  lemma HashIgnoresCaseAndSpacing(co: Collaborators, a: string, b: string)
    requires |a| <= ChunkSize && |b| <= ChunkSize
    requires Words(LowerStr(a)) == Words(LowerStr(b))
    ensures ContentHash(co, a) == ContentHash(co, b)
  {
    ShortTextHash(co, a);
    ShortTextHash(co, b);
  }

  /**
   * A longer text is hashed chunk by chunk: the normalised first 100000
   * characters are fed with no separator before the rest, so the whitespace
   * at a chunk boundary is dropped rather than collapsed to one space.
   */
  lemma {:induction false} ChunkedHash(co: Collaborators, a: string, b: string)
    requires |a| == ChunkSize && b != []
    ensures ContentHash(co, a + b) == co.md5(Normalize(a) + NormalizedStream(Chunks(b)))
  {
    var t := a + b;
    assert t[..ChunkSize] == a && t[ChunkSize..] == b;
    assert Chunks(t) == [a] + Chunks(b);
    StreamCons(a, Chunks(b));
  }

  /** Normalising twice is normalising once, so a normalised text keeps its fingerprint. */
  lemma {:induction false} NormalizeIdempotent(s: string)
    ensures Normalize(Normalize(s)) == Normalize(s)
  {
    var ws := Words(LowerStr(s));
    var j := JoinWith(ws, ' ');
    forall i | 0 <= i < |j| ensures !IsUpper(j[i]) {
      var c := j[i];
      assert c in j;
      JoinChars(ws, ' ', c);
      if c != ' ' {
        var k :| 0 <= k < |ws| && c in ws[k];
        WordsChars(LowerStr(s));
        assert c in LowerStr(s);
        LowerStrAt(s);
      }
    }
    LowerStrOfLower(j);
    WordsOfJoin(ws);
  }

  /** The normalised form of a chunk is its lower-cased words separated by single spaces. */
  lemma NormalizeWords(s: string)
    ensures Words(Normalize(s)) == Words(LowerStr(s))
  {
    WordsOfJoin(Words(LowerStr(s)));
  }

  // ---------------------------------------------------------------------------
  // The bounded ledger

  /** `a` comes before `b` in the set's iteration order. */
  predicate IterBefore(slot: Digest -> nat, a: Digest, b: Digest) {
    slot(a) < slot(b) || (slot(a) == slot(b) && a < b)
  }

  lemma {:induction false} FirstExists(slot: Digest -> nat, s: set<Digest>)
    requires s != {}
    ensures exists x :: x in s && forall y :: y in s && y != x ==> IterBefore(slot, x, y)
    decreases |s|
  {
    var y :| y in s;
    if s != {y} {
      FirstExists(slot, s - {y});
      var x :| x in s - {y} && forall z :: z in s - {y} && z != x ==> IterBefore(slot, x, z);
      if IterBefore(slot, x, y) {
        assert forall z :: z in s && z != x ==> IterBefore(slot, x, z);
      } else {
        assert IterBefore(slot, y, x);
        forall z | z in s && z != y ensures IterBefore(slot, y, z) {
          if z != x {
            assert z in s - {y};
          }
        }
      }
    }
  }

  /** The first digest of a non-empty set in iteration order. */
  function First(slot: Digest -> nat, s: set<Digest>): (x: Digest)
    requires s != {}
    ensures x in s
    ensures forall y :: y in s && y != x ==> IterBefore(slot, x, y)
  {
    FirstExists(slot, s);
    var x :| x in s && forall y :: y in s && y != x ==> IterBefore(slot, x, y);
    x
  }

  /**
   * `set(list(s)[-k:])` for 0 < k <= len(s): the last `k` digests in iteration
   * order survive; every dropped digest comes before every kept one.
   */
  function Truncate(slot: Digest -> nat, s: set<Digest>, k: nat): (r: set<Digest>)
    requires k <= |s|
    ensures r <= s && |r| == k
    ensures forall x, y :: x in s - r && y in r ==> IterBefore(slot, x, y)
    decreases |s|
  {
    if |s| == k then s
    else
      var x := First(slot, s);
      var r := Truncate(slot, s - {x}, k);
      assert forall y :: y in r ==> y != x && IterBefore(slot, x, y);
      r
  }

  datatype Verdict = Verdict(duplicate: bool, ledger: set<Digest>)

  /** The ledger after the eviction that `is_duplicate` performs before looking the digest up. */
  function Evict(slot: Digest -> nat, ledger: set<Digest>): (kept: set<Digest>)
    ensures kept <= ledger
    ensures |ledger| < MaxHashes ==> kept == ledger
    ensures |ledger| >= MaxHashes ==> |kept| == MaxHashes
  {
    if |ledger| >= MaxHashes then Truncate(slot, ledger, MaxHashes) else ledger
  }

  /** `is_duplicate` on the digest of the text: evict, look up, and record only a new digest. */
  function Dedup(slot: Digest -> nat, ledger: set<Digest>, h: Digest): (v: Verdict)
    ensures v.duplicate <==> h in Evict(slot, ledger)
    ensures v.duplicate ==> v.ledger == Evict(slot, ledger)
    ensures !v.duplicate ==> v.ledger == Evict(slot, ledger) + {h}
    ensures h in v.ledger
    ensures |v.ledger| <= MaxHashes + 1
  {
    var kept := Evict(slot, ledger);
    if h in kept then Verdict(true, kept) else Verdict(false, kept + {h})
  }

  /** The ledger does reach `max_hashes + 1` entries: a new digest arriving at a full ledger is added after an eviction that removed nothing. */
  lemma LedgerExceedsMax(slot: Digest -> nat, ledger: set<Digest>, h: Digest)
    requires |ledger| == MaxHashes && h !in ledger
    ensures !Dedup(slot, ledger, h).duplicate
    ensures |Dedup(slot, ledger, h).ledger| == MaxHashes + 1
  {
  }

  /** Below capacity, a text checked twice is new the first time and a duplicate the second time. */
  lemma SecondCheckIsDuplicate(slot: Digest -> nat, ledger: set<Digest>, h: Digest)
    requires |ledger| < MaxHashes
    ensures Dedup(slot, ledger, h).duplicate == (h in ledger)
    ensures Dedup(slot, Dedup(slot, ledger, h).ledger, h).duplicate
  {
    var v := Dedup(slot, ledger, h);
    assert |v.ledger| <= |ledger| + 1;
  }

  /**
   * At capacity the digest just recorded can be evicted at once: when it is the
   * first in iteration order, the same text is reported new a second time.
   */
  lemma {:induction false} JustRecordedCanBeEvicted(slot: Digest -> nat, ledger: set<Digest>, h: Digest)
    requires |ledger| == MaxHashes && h !in ledger
    requires forall y :: y in ledger ==> IterBefore(slot, h, y)
    ensures !Dedup(slot, ledger, h).duplicate
    ensures !Dedup(slot, Dedup(slot, ledger, h).ledger, h).duplicate
  {
    var l1 := Dedup(slot, ledger, h).ledger;
    assert l1 == ledger + {h};
  }

  /** `process_text` on a ledger: nothing for a duplicate, otherwise entities, keywords and the fingerprint. */
  function Process(co: Collaborators, ledger: set<Digest>, text: string): (set<Digest>, Option<Processed>) {
    var v := Dedup(co.slot, ledger, ContentHash(co, text));
    if v.duplicate then (v.ledger, None)
    else (v.ledger, Some(Processed(co.entities(text), Keywords(co, text, DefaultTopN), ContentHash(co, text))))
  }

  /** `process_text` returns None exactly for a duplicate, and otherwise carries the text's fingerprint. */
  lemma ProcessGating(co: Collaborators, ledger: set<Digest>, text: string)
    ensures Process(co, ledger, text).1.None? <==> Dedup(co.slot, ledger, ContentHash(co, text)).duplicate
    ensures Process(co, ledger, text).0 == Dedup(co.slot, ledger, ContentHash(co, text)).ledger
    ensures Process(co, ledger, text).1.Some? ==>
              Process(co, ledger, text).1.value.contentHash == ContentHash(co, text)
  {
  }

  // ---------------------------------------------------------------------------
  // Keywords

  /** The concatenated per-chunk TF-IDF keywords, or None when some chunk raises. */
  function TfidfKeywords(tfidf: (string, nat) -> Option<seq<string>>, topN: nat, chunks: seq<string>): Option<seq<string>> {
    if chunks == [] then Some([])
    else match tfidf(chunks[0], topN)
      case None => None
      case Some(ks) => Prepend(ks, TfidfKeywords(tfidf, topN, chunks[1..]))
  }

  /** `ks` in front of the keywords of the remaining chunks, unless those raised. */
  function Prepend(ks: seq<string>, rest: Option<seq<string>>): Option<seq<string>> {
    match rest
    case None => None
    case Some(r) => Some(ks + r)
  }

  /** `extract_keywords`: unique TF-IDF keywords, or the frequency fallback when the vectoriser raises. */
  function Keywords(co: Collaborators, text: string, topN: nat): seq<string> {
    match TfidfKeywords(co.tfidf, topN, Chunks(text))
    case Some(all) => Take(Unique(all), topN)
    case None => FallbackKeywords(text, topN)
  }

  /** The normal path returns at most `top_n` distinct keywords in order of first occurrence. */
  lemma KeywordsNormalPath(co: Collaborators, text: string, topN: nat)
    requires TfidfKeywords(co.tfidf, topN, Chunks(text)).Some?
    ensures var all := TfidfKeywords(co.tfidf, topN, Chunks(text)).value;
            var r := Keywords(co, text, topN);
            && |r| <= topN
            && NoDups(r)
            && r == Unique(all)[..|r|]
            && (forall i :: 0 <= i < |r| ==> r[i] in all)
            && (forall i, j :: 0 <= i < j < |r| ==> FirstIndex(all, r[i]) < FirstIndex(all, r[j]))
  {
    var all := TfidfKeywords(co.tfidf, topN, Chunks(text)).value;
    UniqueFirstOccurrenceOrder(all);
  }

  /** Words longer than three characters, in order. */
  function LongWords(ws: seq<string>): (r: seq<string>)
    ensures forall w :: w in r ==> |w| > 3 && w in ws
  {
    if ws == [] then []
    else
      var p := ws[..|ws| - 1];
      assert ws == p + [ws[|ws| - 1]];
      var rest := LongWords(p);
      if |ws[|ws| - 1]| > 3 then rest + [ws[|ws| - 1]] else rest
  }

  function FreqOf(m: map<string, nat>, w: string): nat {
    if w in m then m[w] else 0
  }

  /** The `word_freq` dictionary built from a list of words. */
  function Freq(ws: seq<string>): map<string, nat> {
    if ws == [] then map[]
    else
      var m := Freq(ws[..|ws| - 1]);
      var x := ws[|ws| - 1];
      m[x := FreqOf(m, x) + 1]
  }

  lemma {:induction false} FreqCounts(ws: seq<string>, w: string)
    ensures FreqOf(Freq(ws), w) == Count(ws, w)
    ensures w in Freq(ws) <==> w in ws
  {
    if ws != [] {
      var p := ws[..|ws| - 1];
      var x := ws[|ws| - 1];
      FreqCounts(p, w);
      assert ws == p + [x];
      CountAppend(p, x, w);
    }
  }

  /** Place `x` after every word at least as frequent, before the first less frequent one. */
  function Insert(m: map<string, nat>, x: string, s: seq<string>): (r: seq<string>)
    ensures |r| == |s| + 1
    ensures forall y :: y in r <==> y in s || y == x
  {
    if s == [] then [x]
    else if FreqOf(m, s[0]) < FreqOf(m, x) then [x] + s
    else [s[0]] + Insert(m, x, s[1..])
  }

  /** `sorted(word_freq.items(), key=count, reverse=True)`: a stable sort by descending count. */
  function Rank(m: map<string, nat>, order: seq<string>): (r: seq<string>)
    ensures |r| == |order|
    ensures forall y :: y in r <==> y in order
  {
    if order == [] then []
    else
      var p := order[..|order| - 1];
      assert forall y :: y in order <==> y in p || y == order[|order| - 1] by {
        assert order == p + [order[|order| - 1]];
      }
      Insert(m, order[|order| - 1], Rank(m, p))
  }

  predicate SortedByFreq(m: map<string, nat>, s: seq<string>) {
    forall i, j :: 0 <= i < j < |s| ==> FreqOf(m, s[i]) >= FreqOf(m, s[j])
  }

  /** The words of `s` whose count is `c`, in order. */
  function WithFreq(m: map<string, nat>, s: seq<string>, c: nat): seq<string> {
    if s == [] then []
    else (if FreqOf(m, s[0]) == c then [s[0]] else []) + WithFreq(m, s[1..], c)
  }

  lemma {:induction false} WithFreqAppend(m: map<string, nat>, s: seq<string>, x: string, c: nat)
    ensures WithFreq(m, s + [x], c) == WithFreq(m, s, c) + (if FreqOf(m, x) == c then [x] else [])
  {
    if s != [] {
      assert (s + [x])[1..] == s[1..] + [x];
      WithFreqAppend(m, s[1..], x, c);
    }
  }

  lemma {:induction false} WithFreqNone(m: map<string, nat>, s: seq<string>, c: nat)
    requires forall i :: 0 <= i < |s| ==> FreqOf(m, s[i]) < c
    ensures WithFreq(m, s, c) == []
  {
    if s != [] {
      WithFreqNone(m, s[1..], c);
    }
  }

  lemma {:induction false} InsertSorted(m: map<string, nat>, x: string, s: seq<string>)
    requires SortedByFreq(m, s)
    ensures SortedByFreq(m, Insert(m, x, s))
  {
    if s != [] && FreqOf(m, s[0]) >= FreqOf(m, x) {
      var r := Insert(m, x, s);
      var t := Insert(m, x, s[1..]);
      InsertSorted(m, x, s[1..]);
      assert r == [s[0]] + t;
      forall j | 0 < j < |r| ensures FreqOf(m, s[0]) >= FreqOf(m, r[j]) {
        assert r[j] == t[j - 1];
        assert r[j] in t;
        if r[j] != x {
          var k :| 0 <= k < |s[1..]| && s[1..][k] == r[j];
          assert s[k + 1] == r[j];
        }
      }
    }
  }

  lemma {:induction false} InsertStable(m: map<string, nat>, x: string, s: seq<string>, c: nat)
    requires SortedByFreq(m, s)
    ensures WithFreq(m, Insert(m, x, s), c) == WithFreq(m, s, c) + (if FreqOf(m, x) == c then [x] else [])
  {
    if s == [] {
    } else if FreqOf(m, s[0]) < FreqOf(m, x) {
      InsertFrontStable(m, x, s, c);
    } else {
      SortedTail(m, s);
      InsertStable(m, x, s[1..], c);
      InsertLaterStep(m, x, s, c);
    }
  }

  /** Inserted before every word: none of them has the inserted word's count. */
  lemma InsertFrontStable(m: map<string, nat>, x: string, s: seq<string>, c: nat)
    requires SortedByFreq(m, s) && s != [] && FreqOf(m, s[0]) < FreqOf(m, x)
    ensures WithFreq(m, Insert(m, x, s), c) == WithFreq(m, s, c) + (if FreqOf(m, x) == c then [x] else [])
  {
    assert Insert(m, x, s) == [x] + s;
    assert ([x] + s)[1..] == s;
    if FreqOf(m, x) == c {
      forall i | 0 <= i < |s| ensures FreqOf(m, s[i]) < c {
        if i > 0 {
          assert FreqOf(m, s[0]) >= FreqOf(m, s[i]);
        }
      }
      WithFreqNone(m, s, c);
    }
  }

  /** Inserted after the first word: the first word's entry is unchanged. */
  lemma InsertLaterStep(m: map<string, nat>, x: string, s: seq<string>, c: nat)
    requires s != [] && FreqOf(m, s[0]) >= FreqOf(m, x)
    requires WithFreq(m, Insert(m, x, s[1..]), c) == WithFreq(m, s[1..], c) + (if FreqOf(m, x) == c then [x] else [])
    ensures WithFreq(m, Insert(m, x, s), c) == WithFreq(m, s, c) + (if FreqOf(m, x) == c then [x] else [])
  {
    var t := Insert(m, x, s[1..]);
    var here := if FreqOf(m, s[0]) == c then [s[0]] else [];
    assert WithFreq(m, Insert(m, x, s), c) == here + WithFreq(m, t, c) by {
      var r := Insert(m, x, s);
      assert r == [s[0]] + t;
      assert r[0] == s[0] && r[1..] == t;
    }
    assert WithFreq(m, s, c) == here + WithFreq(m, s[1..], c);
  }

  lemma SortedTail(m: map<string, nat>, s: seq<string>)
    requires s != [] && SortedByFreq(m, s)
    ensures SortedByFreq(m, s[1..])
  {
    forall i, j | 0 <= i < j < |s[1..]| ensures FreqOf(m, s[1..][i]) >= FreqOf(m, s[1..][j]) {
      assert s[1..][i] == s[i + 1] && s[1..][j] == s[j + 1];
    }
  }

  lemma {:induction false} InsertNoDups(m: map<string, nat>, x: string, s: seq<string>)
    requires NoDups(s) && x !in s
    ensures NoDups(Insert(m, x, s))
  {
    if s != [] && FreqOf(m, s[0]) >= FreqOf(m, x) {
      var t := Insert(m, x, s[1..]);
      InsertNoDups(m, x, s[1..]);
      assert s[0] !in t;
      assert Insert(m, x, s) == [s[0]] + t;
    }
  }

  /**
   * The ranking is in descending order of count, and words with equal counts
   * keep the order they had in `order` (the first-occurrence order).
   */
  lemma {:induction false} RankSortedStable(m: map<string, nat>, order: seq<string>, c: nat)
    ensures SortedByFreq(m, Rank(m, order))
    ensures WithFreq(m, Rank(m, order), c) == WithFreq(m, order, c)
  {
    if order != [] {
      var p := order[..|order| - 1];
      var x := order[|order| - 1];
      RankSortedStable(m, p, c);
      InsertSorted(m, x, Rank(m, p));
      InsertStable(m, x, Rank(m, p), c);
      assert order == p + [x];
      WithFreqAppend(m, p, x, c);
    }
  }

  /** Ranking distinct words keeps them distinct: together with `Rank`'s contract, a permutation. */
  lemma {:induction false} RankNoDups(m: map<string, nat>, order: seq<string>)
    requires NoDups(order)
    ensures NoDups(Rank(m, order))
  {
    if order != [] {
      var p := order[..|order| - 1];
      var x := order[|order| - 1];
      RankNoDups(m, p);
      assert x !in p;
      InsertNoDups(m, x, Rank(m, p));
    }
  }

  /** The frequency fallback of `extract_keywords`. */
  function FallbackKeywords(text: string, topN: nat): seq<string> {
    var long := LongWords(Words(LowerStr(text)));
    Take(Rank(Freq(long), Unique(long)), topN)
  }

  /**
   * The fallback ranks exactly the distinct lower-cased words longer than three
   * characters, most frequent first with ties in first-occurrence order, each
   * with its number of occurrences, and returns the first `top_n` of them.
   */
  lemma FallbackRanking(text: string, topN: nat, c: nat)
    ensures var long := LongWords(Words(LowerStr(text)));
            var ranked := Rank(Freq(long), Unique(long));
            var r := FallbackKeywords(text, topN);
            && (forall w :: w in ranked <==> w in long)
            && (forall w :: w in long ==> |w| > 3 && w in Words(LowerStr(text)))
            && SortedByFreq(Freq(long), ranked)
            && WithFreq(Freq(long), ranked, c) == WithFreq(Freq(long), Unique(long), c)
            && (forall w :: w in ranked ==> FreqOf(Freq(long), w) == Count(long, w))
            && r == ranked[..|r|]
            && |r| == (if topN <= |ranked| then topN else |ranked|)
  {
    var long := LongWords(Words(LowerStr(text)));
    var ranked := Rank(Freq(long), Unique(long));
    RankSortedStable(Freq(long), Unique(long), c);
    forall w | w in ranked ensures FreqOf(Freq(long), w) == Count(long, w) {
      FreqCounts(long, w);
    }
  }

  /** The fallback never repeats a word. */
  lemma FallbackNoDups(text: string, topN: nat)
    ensures NoDups(FallbackKeywords(text, topN))
  {
    var long := LongWords(Words(LowerStr(text)));
    UniqueFirstOccurrenceOrder(long);
    RankNoDups(Freq(long), Unique(long));
  }

  // ---------------------------------------------------------------------------
  // The processor object

  /** The chunk starting at `i` and the chunks after it. */
  lemma ChunksFrom(text: string, i: nat)
    requires i < |text|
    ensures var end := if i + ChunkSize <= |text| then i + ChunkSize else |text|;
            Chunks(text[i..]) == [text[i..end]] + Chunks(text[end..])
  {
    var t := text[i..];
    if |t| > ChunkSize {
      assert t[..ChunkSize] == text[i..i + ChunkSize] && t[ChunkSize..] == text[i + ChunkSize..];
    } else {
      assert text[i..|text|] == t;
      assert Chunks(t) == [t];
      assert text[|text|..] == [];
    }
  }

  lemma StreamCons(c: string, cs: seq<string>)
    ensures NormalizedStream([c] + cs) == Normalize(c) + NormalizedStream(cs)
  {
    assert ([c] + cs)[1..] == cs;
  }

  lemma TfidfCons(tfidf: (string, nat) -> Option<seq<string>>, topN: nat, c: string, cs: seq<string>)
    ensures TfidfKeywords(tfidf, topN, [c] + cs) ==
            (match tfidf(c, topN)
             case None => None
             case Some(ks) => Prepend(ks, TfidfKeywords(tfidf, topN, cs)))
  {
    assert ([c] + cs)[1..] == cs;
  }

  lemma PrependAssoc(all: seq<string>, ks: seq<string>, rest: Option<seq<string>>)
    ensures Prepend(all, Prepend(ks, rest)) == Prepend(all + ks, rest)
  {
    if rest.Some? {
      assert all + (ks + rest.value) == (all + ks) + rest.value;
    }
  }

  /** One more word of the fallback's scan: the count and first-occurrence order it updates. */
  lemma {:induction false} LongWordsStep(words: seq<string>, i: nat, next: seq<string>)
    requires i < |words|
    requires next == LongWords(words[..i]) + (if |words[i]| > 3 then [words[i]] else [])
    ensures LongWords(words[..i + 1]) == next
  {
    assert words[..i + 1][..i] == words[..i];
  }

  lemma {:induction false} FreqUniqueStep(long: seq<string>, w: string)
    ensures Freq(long + [w]) == Freq(long)[w := FreqOf(Freq(long), w) + 1]
    ensures Unique(long + [w]) == if w in Freq(long) then Unique(long) else Unique(long) + [w]
  {
    assert (long + [w])[..|long|] == long;
    FreqCounts(long, w);
    if w in long {
      assert w in Unique(long) by {
        var k :| 0 <= k < |long| && long[k] == w;
      }
    }
  }

  class TextProcessor {
    const co: Collaborators
    var contentHashes: set<Digest>

    constructor (co: Collaborators)
      ensures this.co == co && contentHashes == {}
    {
      this.co := co;
      contentHashes := {};
    }

    /** `calculate_content_hash`: feed each normalised chunk to one hasher. */
    method CalculateContentHash(text: string) returns (h: Digest)
      ensures h == ContentHash(co, text)
    {
      var fed: string := [];
      var i := 0;
      assert text[0..] == text;
      while i < |text|
        invariant 0 <= i <= |text|
        invariant fed + NormalizedStream(Chunks(text[i..])) == NormalizedStream(Chunks(text))
        decreases |text| - i
      {
        var end := if i + ChunkSize <= |text| then i + ChunkSize else |text|;
        var chunk := text[i..end];
        ChunksFrom(text, i);
        StreamCons(chunk, Chunks(text[end..]));
        var normalized := Normalize(chunk);
        ConcatAssoc(fed, normalized, NormalizedStream(Chunks(text[end..])));
        fed := fed + normalized;
        i := end;
      }
      assert text[i..] == [];
      assert NormalizedStream(Chunks(text[i..])) == [];
      assert fed + [] == fed;
      h := co.md5(fed);
    }

    /** `is_duplicate`. */
    method IsDuplicate(text: string) returns (dup: bool)
      modifies this`contentHashes
      ensures Dedup(co.slot, old(contentHashes), ContentHash(co, text)) == Verdict(dup, contentHashes)
    {
      var h := CalculateContentHash(text);
      if |contentHashes| >= MaxHashes {
        contentHashes := Truncate(co.slot, contentHashes, MaxHashes);
      }
      if h in contentHashes {
        return true;
      }
      contentHashes := contentHashes + {h};
      return false;
    }

    /** The counting loop of the fallback: `word_freq` over the words longer than three characters. */
    method CountLongWords(words: seq<string>) returns (freq: map<string, nat>, order: seq<string>)
      ensures freq == Freq(LongWords(words))
      ensures order == Unique(LongWords(words))
    {
      freq := map[];
      order := [];
      ghost var long: seq<string> := [];
      var i := 0;
      assert words[..0] == [];
      while i < |words|
        invariant 0 <= i <= |words|
        invariant long == LongWords(words[..i])
        invariant freq == Freq(long) && order == Unique(long)
      {
        LongWordsStep(words, i, long + (if |words[i]| > 3 then [words[i]] else []));
        freq, order, long := CountWord(freq, order, long, words[i]);
        i := i + 1;
      }
      assert words[..i] == words;
    }

    /** One word of the counting loop: a word longer than three characters is counted. */
    method CountWord(freq: map<string, nat>, order: seq<string>, ghost long: seq<string>, w: string)
      returns (freq': map<string, nat>, order': seq<string>, ghost long': seq<string>)
      requires freq == Freq(long) && order == Unique(long)
      ensures long' == long + (if |w| > 3 then [w] else [])
      ensures freq' == Freq(long') && order' == Unique(long')
    {
      freq', order', long' := freq, order, long;
      if |w| > 3 {
        FreqUniqueStep(long, w);
        if w !in freq {
          order' := order + [w];
        }
        freq' := freq[w := FreqOf(freq, w) + 1];
        long' := long + [w];
      } else {
        assert long + [] == long;
      }
    }

    /** The fallback branch of `extract_keywords`: count long words, rank, keep the first `top_n`. */
    method FrequencyKeywords(text: string, topN: nat) returns (r: seq<string>)
      ensures r == FallbackKeywords(text, topN)
    {
      var freq, order := CountLongWords(Words(LowerStr(text)));
      r := Take(Rank(freq, order), topN);
    }

    /** The chunk loop of `extract_keywords`: every chunk's TF-IDF keywords, or None at the first chunk that raises. */
    method ScanChunks(text: string, topN: nat) returns (found: Option<seq<string>>)
      ensures found == TfidfKeywords(co.tfidf, topN, Chunks(text))
    {
      var all: seq<string> := [];
      var i := 0;
      assert text[0..] == text;
      assert Prepend([], TfidfKeywords(co.tfidf, topN, Chunks(text))) == TfidfKeywords(co.tfidf, topN, Chunks(text)) by {
        var o := TfidfKeywords(co.tfidf, topN, Chunks(text));
        if o.Some? {
          assert [] + o.value == o.value;
        }
      }
      while i < |text|
        invariant 0 <= i <= |text|
        invariant TfidfKeywords(co.tfidf, topN, Chunks(text)) ==
                  Prepend(all, TfidfKeywords(co.tfidf, topN, Chunks(text[i..])))
        decreases |text| - i
      {
        var end := if i + ChunkSize <= |text| then i + ChunkSize else |text|;
        var chunk := text[i..end];
        ChunksFrom(text, i);
        TfidfCons(co.tfidf, topN, chunk, Chunks(text[end..]));
        var keywords := co.tfidf(chunk, topN);
        if keywords.None? {
          return None;
        }
        PrependAssoc(all, keywords.value, TfidfKeywords(co.tfidf, topN, Chunks(text[end..])));
        all := all + keywords.value;
        i := end;
      }
      assert text[i..] == [];
      assert all + [] == all;
      found := Some(all);
    }

    /** `extract_keywords`: unique TF-IDF keywords, falling back to word counts when the vectoriser raises. */
    method ExtractKeywords(text: string, topN: nat) returns (r: seq<string>)
      ensures r == Keywords(co, text, topN)
    {
      var found := ScanChunks(text, topN);
      if found.Some? {
        r := Take(Unique(found.value), topN);
      } else {
        r := FrequencyKeywords(text, topN);
      }
    }

    /** `process_text`. */
    method ProcessText(text: string) returns (r: Option<Processed>)
      modifies this`contentHashes
      ensures (contentHashes, r) == Process(co, old(contentHashes), text)
    {
      var dup := IsDuplicate(text);
      if dup {
        return None;
      }
      var keywords := ExtractKeywords(text, DefaultTopN);
      var h := CalculateContentHash(text);
      r := Some(Processed(co.entities(text), keywords, h));
    }
  }

  /** A fresh processor reports a text new, then reports the same text a duplicate. */
  method FreshProcessorDedup(co: Collaborators, text: string, again: string)
    returns (first: bool, second: bool)
    requires ContentHash(co, again) == ContentHash(co, text)
    ensures !first && second
  {
    var p := new TextProcessor(co);
    first := p.IsDuplicate(text);
    second := p.IsDuplicate(again);
  }
}
