/**
 * The S3 persistence layer: the object-key layout, the size split of a raw payload, the
 * buffer-then-multipart protocol for processed text, and the small format and lookup calls.
 *
 * Every storage call is recorded in the storage object's `log`. The service's answer to a
 * call is an oracle `respond` indexed by the call's position in that log, so a run of the
 * protocol is a plan of calls issued in order until the first one the service rejects.
 */
module S3Storing {
  import opened Wrappers
  import opened Strings

  type Bytes = seq<bv8>

  /** Five mebibytes: the single-put limit, the raw slice size and the text buffer threshold. */
  const PartSize: nat := 5 * 1024 * 1024

  const RawPrefix: string := "raw"
  const ProcessedPrefix: string := "processed"
  const TextPrefix: string := "text_processed"

  datatype StorageConfig = StorageConfig(accessKey: string, secretKey: string, bucket: string)

  /** A calendar date as the clock reports it. */
  datatype Date = Date(year: nat, month: nat, day: nat)

  predicate ValidDate(d: Date) {
    1 <= d.month <= 12 && 1 <= d.day <= 31
  }

  /** One entry of a multipart completion list. */
  datatype Part = Part(number: nat, etag: string)

  /** The storage calls the pipeline makes. */
  datatype Call =
    | PutObject(key: string, body: Bytes, contentType: string, gzipped: bool)
    | CreateUpload(key: string)
    | UploadPart(key: string, number: nat, body: Bytes)
    | CompleteUpload(key: string, parts: seq<Part>)
    | AbortUpload(key: string)
    | HeadObject(key: string)
    | ListObjects(prefix: string)

  /**
   * The service's answer to one call: a client error with its code, or success carrying the
   * uploaded part's ETag and, for a listing, the keys (None when the response has no Contents).
   */
  datatype Reply = Rejected(code: string) | Accepted(etag: string, contents: Option<seq<string>>)

  datatype StorageError = MissingCredentials | UnsupportedFormat(format: string) | ClientError(code: string)

  predicate CredentialsPresent(cfg: StorageConfig) {
    cfg.accessKey != [] && cfg.secretKey != [] && cfg.bucket != []
  }

  // ---------------------------------------------------------------------------
  // Keys

  /** `YYYY/MM/DD` with month and day zero-padded. */
  function DatePath(d: Date): string {
    NatToDecimal(d.year) + "/" + Pad2(d.month) + "/" + Pad2(d.day)
  }

  /** `<data type>/<source>/<date path>/<filename>`. */
  function GenerateKey(source: string, dataType: string, filename: string, d: Date): string {
    dataType + "/" + source + "/" + DatePath(d) + "/" + filename
  }

  /**
   * A key splits on '/' into exactly its six fields when no name holds a '/', and the date
   * fields read back as the date, month and day being two digits.
   */
  lemma KeyLayout(source: string, dataType: string, filename: string, d: Date)
    requires ValidDate(d)
    requires '/' !in source && '/' !in dataType && '/' !in filename
    ensures var parts := SplitOnChar(GenerateKey(source, dataType, filename, d), '/');
            && parts == [dataType, source, NatToDecimal(d.year), Pad2(d.month), Pad2(d.day), filename]
            && |parts[3]| == 2 && |parts[4]| == 2
            && DecimalValue(parts[2]) == d.year
            && DecimalValue(parts[3]) == d.month
            && DecimalValue(parts[4]) == d.day
  {
    var ws := [dataType, source, NatToDecimal(d.year), Pad2(d.month), Pad2(d.day), filename];
    Pad2RoundTrip(d.month);
    Pad2RoundTrip(d.day);
    DecimalRoundTrip(d.year);
    KeyIsJoin(source, dataType, filename, d);
    forall k | 0 <= k < |ws| ensures '/' !in ws[k] {
      if k == 3 || k == 4 {
        assert forall i :: 0 <= i < 2 ==> ws[k][i] != '/';
      }
    }
    SplitJoinRoundTrip(ws, '/');
  }

  lemma KeyIsJoin(source: string, dataType: string, filename: string, d: Date)
    ensures GenerateKey(source, dataType, filename, d)
            == JoinWith([dataType, source, NatToDecimal(d.year), Pad2(d.month), Pad2(d.day), filename], '/')
  {
    var ws := [dataType, source, NatToDecimal(d.year), Pad2(d.month), Pad2(d.day), filename];
    DateTailIsJoin(filename, d);
    assert ws[2..] == [NatToDecimal(d.year), Pad2(d.month), Pad2(d.day), filename];
    assert JoinWith(ws[1..], '/') == source + "/" + DatePath(d) + "/" + filename by { assert ws[1..][1..] == ws[2..]; }
  }

  lemma DateTailIsJoin(filename: string, d: Date)
    ensures DatePath(d) + "/" + filename == JoinWith([NatToDecimal(d.year), Pad2(d.month), Pad2(d.day), filename], '/')
  {
    var y, m, dd := NatToDecimal(d.year), Pad2(d.month), Pad2(d.day);
    var ws := [y, m, dd, filename];
    assert JoinWith(ws[3..], '/') == filename;
    assert JoinWith(ws[2..], '/') == dd + "/" + filename by { assert ws[2..][1..] == ws[3..]; }
    assert JoinWith(ws[1..], '/') == m + "/" + dd + "/" + filename by { assert ws[1..][1..] == ws[2..]; }
  }

  /** The given file name when it is present and non-empty, else `<source>_<timestamp><suffix>`. */
  function FileName(filename: Option<string>, source: string, timestamp: string, suffix: string): string {
    if filename.Some? && filename.value != [] then filename.value
    else source + "_" + timestamp + suffix
  }

  /** The key `stream_raw_data` writes to. */
  function RawKey(source: string, filename: Option<string>, timestamp: string, d: Date): string {
    GenerateKey(source, RawPrefix, FileName(filename, source, timestamp, ".json.gz"), d)
  }

  /** The key `stream_processed_text_data` writes to. */
  function TextKey(source: string, filename: Option<string>, timestamp: string, d: Date): string {
    GenerateKey(source, TextPrefix, FileName(filename, source, timestamp, "_text.json.gz"), d)
  }

  /** The key `store_processed_data` writes to. */
  function ProcessedKey(source: string, format: string, filename: Option<string>, timestamp: string, d: Date): string {
    GenerateKey(source, ProcessedPrefix, FileName(filename, source, timestamp, "." + format), d)
  }

  // ---------------------------------------------------------------------------
  // Issuing a plan of calls

  /**
   * The log after issuing `plan` from `log` on, and the code of the error that stopped it
   * (None when every call was accepted). The rejected call itself is in the log.
   */
  function Issue(respond: nat -> Reply, log: seq<Call>, plan: seq<Call>): (seq<Call>, Option<string>)
    decreases |plan|
  {
    if plan == [] then (log, None)
    else match respond(|log|)
      case Rejected(code) => (log + [plan[0]], Some(code))
      case Accepted(_, _) => Issue(respond, log + [plan[0]], plan[1..])
  }

  /**
   * Issuing appends a prefix of the plan: all of it when no call is rejected, and otherwise
   * up to and including the first rejected call, every call before it having been accepted.
   */
  lemma {:induction false} IssueIsPrefix(respond: nat -> Reply, log: seq<Call>, plan: seq<Call>)
    ensures var (after, err) := Issue(respond, log, plan);
            && |log| <= |after| <= |log| + |plan|
            && after == log + plan[..|after| - |log|]
            && (err.None? ==> after == log + plan)
            && (err.Some? ==> |after| > |log| && respond(|after| - 1) == Rejected(err.value))
            && (forall k :: |log| <= k < |after| - 1 ==> respond(k).Accepted?)
            && (err.None? ==> forall k :: |log| <= k < |after| ==> respond(k).Accepted?)
    decreases |plan|
  {
    if plan != [] && respond(|log|).Accepted? {
      IssueIsPrefix(respond, log + [plan[0]], plan[1..]);
      var after := Issue(respond, log, plan).0;
      assert plan[1..][..|after| - |log| - 1] == plan[..|after| - |log|][1..];
      assert plan == [plan[0]] + plan[1..];
    }
  }

  /** The result of a storage operation that stopped with `err` on `key`. */
  function Outcome(key: string, err: Option<string>): Result<string, StorageError> {
    match err
    case None => Ok(key)
    case Some(code) => Err(ClientError(code))
  }

  // ---------------------------------------------------------------------------
  // Multipart plans

  function Flatten<T>(ss: seq<seq<T>>): seq<T> {
    if ss == [] then [] else ss[0] + Flatten(ss[1..])
  }

  /** The ETag a reply carries (a rejected call has none). */
  function EtagOf(r: Reply): string {
    if r.Accepted? then r.etag else ""
  }

  /** Completion entries for parts 1..n whose uploads are calls `at`, `at + 1`, .... */
  function Parts(n: nat, respond: nat -> Reply, at: nat): seq<Part> {
    seq(n, j requires 0 <= j < n => Part(j + 1, EtagOf(respond(at + j))))
  }

  /** Create, upload `bodies` as parts 1..n, complete with their entries; the create is call `at`. */
  function MultipartPlan(key: string, bodies: seq<Bytes>, respond: nat -> Reply, at: nat): seq<Call> {
    [CreateUpload(key)]
    + seq(|bodies|, j requires 0 <= j < |bodies| => UploadPart(key, j + 1, bodies[j]))
    + [CompleteUpload(key, Parts(|bodies|, respond, at + 1))]
  }

  /** Consecutive slices of `PartSize` bytes; the last may be shorter. */
  function Slices(data: Bytes): seq<Bytes>
    decreases |data|
  {
    if data == [] then []
    else
      var n := if |data| < PartSize then |data| else PartSize;
      [data[..n]] + Slices(data[n..])
  }

  /** The slices concatenate to the payload; all are non-empty and all but the last are full. */
  lemma {:induction false} SlicesCover(data: Bytes)
    ensures Flatten(Slices(data)) == data
    ensures forall k :: 0 <= k < |Slices(data)| ==> 0 < |Slices(data)[k]| <= PartSize
    ensures forall k :: 0 <= k < |Slices(data)| - 1 ==> |Slices(data)[k]| == PartSize
    ensures Slices(data) == [] <==> data == []
    decreases |data|
  {
    if data != [] {
      var n := if |data| < PartSize then |data| else PartSize;
      var s := Slices(data);
      SlicesCover(data[n..]);
      assert s[1..] == Slices(data[n..]);
      assert data == data[..n] + data[n..];
      if n < PartSize {
        assert data[n..] == [] && data[..n] == data;
        assert s == [data];
      }
    }
  }

  /** The raw payload: one put below 5 MiB, otherwise a multipart upload of its slices. */
  function RawPlan(key: string, payload: Bytes, respond: nat -> Reply, at: nat): seq<Call> {
    if |payload| < PartSize then [PutObject(key, payload, "application/json", true)]
    else MultipartPlan(key, Slices(payload), respond, at)
  }

  /**
   * A payload of at least 5 MiB is created, uploaded as parts 1..n of full slices (the last
   * may be shorter) that concatenate to the payload, and completed with those parts in order.
   */
  lemma RawPlanMultipart(key: string, payload: Bytes, respond: nat -> Reply, at: nat)
    requires |payload| >= PartSize
    ensures var plan := RawPlan(key, payload, respond, at);
            var n := |plan| - 2;
            && n >= 1
            && plan[0] == CreateUpload(key)
            && (forall j :: 1 <= j <= n ==>
                  plan[j].UploadPart? && plan[j].key == key && plan[j].number == j
                  && 0 < |plan[j].body| <= PartSize
                  && (j < n ==> |plan[j].body| == PartSize))
            && Flatten(seq(n, j requires 0 <= j < n => plan[j + 1].body)) == payload
            && plan[n + 1] == CompleteUpload(key, seq(n, j requires 0 <= j < n => Part(j + 1, EtagOf(respond(at + 1 + j)))))
  {
    var plan := RawPlan(key, payload, respond, at);
    var s := Slices(payload);
    SlicesCover(payload);
    var n := |plan| - 2;
    assert n == |s|;
    assert seq(n, j requires 0 <= j < n => plan[j + 1].body) == s;
  }

  /** Python's `len(str(chunk))` summed over a buffer. */
  function Weight<T>(buf: seq<T>, size: T -> nat): nat {
    if buf == [] then 0 else Weight(buf[..|buf| - 1], size) + size(buf[|buf| - 1])
  }

  /**
   * The parts formed from `chunks` when the buffer already holds `buf` of weight `total`: a
   * chunk joins the buffer, and the buffer becomes a part as soon as its weight reaches 5 MiB;
   * what is left at the end becomes the final part when it is non-empty.
   */
  function Flush<T>(chunks: seq<T>, size: T -> nat, buf: seq<T>, total: nat): seq<seq<T>>
    decreases |chunks|
  {
    if chunks == [] then (if buf == [] then [] else [buf])
    else
      var b := buf + [chunks[0]];
      var t := total + size(chunks[0]);
      if t >= PartSize then [b] + Flush(chunks[1..], size, [], 0)
      else Flush(chunks[1..], size, b, t)
  }

  function Groups<T>(chunks: seq<T>, size: T -> nat): seq<seq<T>> {
    Flush(chunks, size, [], 0)
  }

  /** Every chunk lands in exactly one part, in order, and no part is empty. */
  lemma {:induction false} FlushCover<T>(chunks: seq<T>, size: T -> nat, buf: seq<T>, total: nat)
    ensures Flatten(Flush(chunks, size, buf, total)) == buf + chunks
    ensures forall k :: 0 <= k < |Flush(chunks, size, buf, total)| ==> Flush(chunks, size, buf, total)[k] != []
    decreases |chunks|
  {
    if chunks != [] {
      var b := buf + [chunks[0]];
      var t := total + size(chunks[0]);
      assert buf + chunks == b + chunks[1..];
      if t >= PartSize {
        FlushCover(chunks[1..], size, [], 0);
        var g := Flush(chunks, size, buf, total);
        assert g[1..] == Flush(chunks[1..], size, [], 0);
      } else {
        FlushCover(chunks[1..], size, b, t);
      }
    }
  }

  lemma WeightAppend<T>(buf: seq<T>, x: T, size: T -> nat)
    ensures Weight(buf + [x], size) == Weight(buf, size) + size(x)
  {
    assert (buf + [x])[..|buf|] == buf;
  }

  /**
   * Flushing happens as soon as the threshold is reached: every part but the last weighs at
   * least 5 MiB, and no part is still under it without its last chunk.
   */
  lemma {:induction false} FlushThreshold<T>(chunks: seq<T>, size: T -> nat, buf: seq<T>, total: nat)
    requires total == Weight(buf, size) < PartSize
    ensures var g := Flush(chunks, size, buf, total);
            && (forall k :: 0 <= k < |g| - 1 ==> Weight(g[k], size) >= PartSize)
            && (forall k :: 0 <= k < |g| && g[k] != [] ==> Weight(g[k][..|g[k]| - 1], size) < PartSize)
    decreases |chunks|
  {
    var g := Flush(chunks, size, buf, total);
    if chunks == [] {
      if buf != [] {
        assert g == [buf];
        assert buf == buf[..|buf| - 1] + [buf[|buf| - 1]];
        WeightAppend(buf[..|buf| - 1], buf[|buf| - 1], size);
      }
    } else {
      var b := buf + [chunks[0]];
      var t := total + size(chunks[0]);
      WeightAppend(buf, chunks[0], size);
      assert b[..|b| - 1] == buf;
      if t >= PartSize {
        FlushThreshold(chunks[1..], size, [], 0);
        assert g == [b] + Flush(chunks[1..], size, [], 0);
      } else {
        FlushThreshold(chunks[1..], size, b, t);
        assert g == Flush(chunks[1..], size, b, t);
      }
    }
  }

  /** Each group of chunks serialised. */
  function Encoded<T>(groups: seq<seq<T>>, encode: seq<T> -> Bytes): seq<Bytes> {
    seq(|groups|, j requires 0 <= j < |groups| => encode(groups[j]))
  }

  /** Processed text: a multipart upload, one part per flushed buffer, each encoded. */
  function TextPlan<T>(key: string, chunks: seq<T>, size: T -> nat, encode: seq<T> -> Bytes,
                       respond: nat -> Reply, at: nat): seq<Call>
  {
    MultipartPlan(key, Encoded(Groups(chunks, size), encode), respond, at)
  }

  /**
   * The text upload is created, uploads part j as the j-th group of chunks (the groups
   * concatenating to the chunks in order), and completes with parts 1..n in order; with no
   * chunks it still creates and completes, with an empty part list.
   */
  lemma TextPlanShape<T>(key: string, chunks: seq<T>, size: T -> nat, encode: seq<T> -> Bytes,
                         respond: nat -> Reply, at: nat)
    ensures var plan := TextPlan(key, chunks, size, encode, respond, at);
            var g := Groups(chunks, size);
            && |plan| == |g| + 2
            && Flatten(g) == chunks
            && plan[0] == CreateUpload(key)
            && (forall j :: 1 <= j <= |g| ==> plan[j] == UploadPart(key, j, encode(g[j - 1])))
            && plan[|g| + 1] == CompleteUpload(key, seq(|g|, j requires 0 <= j < |g| => Part(j + 1, EtagOf(respond(at + 1 + j)))))
            && (chunks == [] ==> plan == [CreateUpload(key), CompleteUpload(key, [])])
  {
    FlushCover(chunks, size, [], 0);
    if chunks == [] {
      var g := Groups(chunks, size);
      assert g == [];
      assert Encoded(g, encode) == [];
      assert Parts(0, respond, at + 1) == [];
    }
  }

  /** The streaming uploads never issue an abort: every call they make is one of their plan's. */
  lemma RawNeverAborts(respond: nat -> Reply, log: seq<Call>, key: string, payload: Bytes)
    ensures var after := Issue(respond, log, RawPlan(key, payload, respond, |log|)).0;
            forall k :: |log| <= k < |after| ==> !after[k].AbortUpload?
  {
    var plan := RawPlan(key, payload, respond, |log|);
    IssueIsPrefix(respond, log, plan);
  }

  lemma TextNeverAborts<T>(respond: nat -> Reply, log: seq<Call>, key: string, chunks: seq<T>,
                           size: T -> nat, encode: seq<T> -> Bytes)
    ensures var after := Issue(respond, log, TextPlan(key, chunks, size, encode, respond, |log|)).0;
            forall k :: |log| <= k < |after| ==> !after[k].AbortUpload?
  {
    var plan := TextPlan(key, chunks, size, encode, respond, |log|);
    IssueIsPrefix(respond, log, plan);
  }

  // ---------------------------------------------------------------------------
  // Single calls

  /** The put for `store_processed_data`, or None for a format other than json, parquet or csv. */
  function FormatPut(key: string, format: string, body: Bytes): (c: Option<Call>)
    ensures c.Some? <==> format in ["json", "parquet", "csv"]
    ensures c.Some? ==> c.value.PutObject? && c.value.key == key && c.value.body == body
    ensures c.Some? ==> (c.value.gzipped <==> format != "parquet")
  {
    if format == "json" then Some(PutObject(key, body, "application/json", true))
    else if format == "parquet" then Some(PutObject(key, body, "application/octet-stream", false))
    else if format == "csv" then Some(PutObject(key, body, "text/csv", true))
    else None
  }

  /** `check_file_exists`: true on success, false on a 404, the error otherwise. */
  function ExistsVerdict(reply: Reply): (r: Result<bool, StorageError>)
    ensures r == Ok(true) <==> reply.Accepted?
    ensures r == Ok(false) <==> reply == Rejected("404")
    ensures r.Err? <==> (reply.Rejected? && reply.code != "404")
    ensures r.Err? ==> r.error == ClientError(reply.code)
  {
    match reply
    case Accepted(_, _) => Ok(true)
    case Rejected(code) => if code == "404" then Ok(false) else Err(ClientError(code))
  }

  /** `list_files`: the listed keys, none when the response has no contents, the error otherwise. */
  function Listing(reply: Reply): (r: Result<seq<string>, StorageError>)
    ensures r.Err? <==> reply.Rejected?
    ensures reply.Accepted? && reply.contents.None? ==> r == Ok([])
    ensures reply.Accepted? && reply.contents.Some? ==> r == Ok(reply.contents.value)
  {
    match reply
    case Rejected(code) => Err(ClientError(code))
    case Accepted(_, contents) => Ok(contents.GetOr([]))
  }

  /** Issuing a plan whose first `m` calls are accepted is issuing the rest after them. */
  lemma {:induction false} IssueAccepted(respond: nat -> Reply, log0: seq<Call>, plan: seq<Call>, m: nat)
    requires m <= |plan|
    requires forall k :: |log0| <= k < |log0| + m ==> respond(k).Accepted?
    ensures Issue(respond, log0, plan) == Issue(respond, log0 + plan[..m], plan[m..])
  {
    if m > 0 {
      IssueAccepted(respond, log0, plan, m - 1);
      var before := log0 + plan[..m - 1];
      assert |before| == |log0| + m - 1;
      assert respond(|before|).Accepted?;
      assert plan[m - 1..][0] == plan[m - 1] && plan[m - 1..][1..] == plan[m..];
      assert before + [plan[m - 1]] == log0 + plan[..m];
    } else {
      assert log0 + plan[..0] == log0 && plan[0..] == plan;
    }
  }

  /** The calls of a multipart plan, position by position. */
  lemma MultipartPlanAt(key: string, bodies: seq<Bytes>, respond: nat -> Reply, at: nat)
    ensures var plan := MultipartPlan(key, bodies, respond, at);
            && |plan| == |bodies| + 2
            && plan[0] == CreateUpload(key)
            && (forall j :: 0 <= j < |bodies| ==> plan[j + 1] == UploadPart(key, j + 1, bodies[j]))
            && plan[|bodies| + 1] == CompleteUpload(key, Parts(|bodies|, respond, at + 1))
  {
  }

  lemma PartsSnoc(n: nat, respond: nat -> Reply, at: nat)
    ensures Parts(n + 1, respond, at) == Parts(n, respond, at) + [Part(n + 1, EtagOf(respond(at + n)))]
  {
  }

  /** One slice taken from position `i` of the payload, the `k`-th of them. */
  lemma SlicesFrom(data: Bytes, i: nat, end: nat, bodies: seq<Bytes>, k: nat)
    requires i < |data|
    requires end == if i + PartSize < |data| then i + PartSize else |data|
    requires k <= |bodies| && Slices(data[i..]) == bodies[k..]
    ensures k < |bodies| && bodies[k] == data[i..end] && Slices(data[end..]) == bodies[k + 1..]
  {
    var n := end - i;
    assert data[i..][..n] == data[i..end];
    assert data[i..][n..] == data[end..];
    assert bodies[k + 1..] == bodies[k..][1..];
  }

  /** One chunk taken into the buffer. */
  lemma FlushStep<T>(chunks: seq<T>, i: nat, size: T -> nat, buf: seq<T>, total: nat)
    requires i < |chunks|
    ensures Flush(chunks[i..], size, buf, total)
            == if total + size(chunks[i]) >= PartSize
               then [buf + [chunks[i]]] + Flush(chunks[i + 1..], size, [], 0)
               else Flush(chunks[i + 1..], size, buf + [chunks[i]], total + size(chunks[i]))
  {
    assert chunks[i..][0] == chunks[i];
    assert chunks[i..][1..] == chunks[i + 1..];
  }

  // ---------------------------------------------------------------------------
  // The storage object

  class S3Storage {
    const bucket: string
    const respond: nat -> Reply
    var log: seq<Call>

    constructor (cfg: StorageConfig, respond: nat -> Reply)
      requires CredentialsPresent(cfg)
      ensures bucket == cfg.bucket && this.respond == respond && log == []
    {
      bucket := cfg.bucket;
      this.respond := respond;
      log := [];
    }

    /** One call to the service: it is logged, and the oracle answers it. */
    method Send(c: Call) returns (reply: Reply)
      modifies this`log
      ensures log == old(log) + [c] && reply == respond(|old(log)|)
    {
      reply := respond(|log|);
      log := log + [c];
    }

    /**
     * Call `m` of a plan being issued, every earlier one having been accepted: when it is
     * rejected the outcome of the whole plan is settled.
     */
    method SendPlanned(c: Call, ghost log0: seq<Call>, ghost plan: seq<Call>, ghost m: nat)
      returns (reply: Reply)
      requires m < |plan| && plan[m] == c
      requires log == log0 + plan[..m]
      requires forall k :: |log0| <= k < |log| ==> respond(k).Accepted?
      modifies this`log
      ensures log == log0 + plan[..m + 1] && reply == respond(|log0| + m)
      ensures reply.Rejected? ==> Issue(respond, log0, plan) == (log, Some(reply.code))
      ensures reply.Accepted? ==> forall k :: |log0| <= k < |log| ==> respond(k).Accepted?
    {
      assert plan[..m + 1] == plan[..m] + [c];
      assert |log| == |log0| + m;
      reply := Send(c);
      if reply.Rejected? {
        IssueAccepted(respond, log0, plan, m);
        assert plan[m..][0] == c;
      }
    }

    /**
     * `stream_raw_data`: collects every chunk, returns the key without a call when there is
     * none, and otherwise issues the raw plan of the encoded chunks.
     */
    method StreamRawData<T>(source: string, chunks: seq<T>, filename: Option<string>,
                            encode: seq<T> -> Bytes, date: Date, timestamp: string)
      returns (r: Result<string, StorageError>)
      modifies this`log
      ensures var key := RawKey(source, filename, timestamp, date);
              var plan := if chunks == [] then [] else RawPlan(key, encode(chunks), respond, |old(log)|);
              var out := Issue(respond, old(log), plan);
              log == out.0 && r == Outcome(key, out.1)
    {
      var key := RawKey(source, filename, timestamp, date);
      if chunks == [] {
        return Ok(key);
      }
      var payload := encode(chunks);
      var reply: Reply;
      if |payload| < PartSize {
        reply := Send(PutObject(key, payload, "application/json", true));
        r := if reply.Rejected? then Err(ClientError(reply.code)) else Ok(key);
        return;
      }
      r := UploadSlices(key, payload);
    }

    /** The multipart branch of `stream_raw_data`: the payload's slices as parts 1..n. */
    method UploadSlices(key: string, payload: Bytes) returns (r: Result<string, StorageError>)
      modifies this`log
      ensures var out := Issue(respond, old(log), MultipartPlan(key, Slices(payload), respond, |old(log)|));
              log == out.0 && r == Outcome(key, out.1)
    {
      var reply: Reply;
      ghost var log0 := log;
      ghost var bodies := Slices(payload);
      ghost var plan := MultipartPlan(key, bodies, respond, |log0|);
      MultipartPlanAt(key, bodies, respond, |log0|);
      reply := SendPlanned(CreateUpload(key), log0, plan, 0);
      if reply.Rejected? {
        return Err(ClientError(reply.code));
      }
      var parts: seq<Part> := [];
      var number := 1;
      var i := 0;
      assert payload[0..] == payload && bodies[0..] == bodies;
      while i < |payload|
        invariant number == |parts| + 1
        invariant SlicesUploading(key, payload, log0, plan, bodies, i, parts)
        decreases |payload| - i
      {
        var err;
        i, parts, number, err := SendSlice(key, payload, log0, plan, bodies, i, parts, number);
        if err.Some? {
          return Err(ClientError(err.value));
        }
      }
      assert payload[|payload|..] == [];
      r := CompleteParts(key, parts, log0, plan);
    }

    /** The state of the multipart branch of `stream_raw_data` before the slice at `i`. */
    ghost predicate SlicesUploading(key: string, payload: Bytes, log0: seq<Call>, plan: seq<Call>,
                                    bodies: seq<Bytes>, i: nat, parts: seq<Part>)
      reads this
    {
      && i <= |payload|
      && plan == MultipartPlan(key, bodies, respond, |log0|)
      && |parts| <= |bodies|
      && Slices(payload[i..]) == bodies[|parts|..]
      && parts == Parts(|parts|, respond, |log0| + 1)
      && log == log0 + plan[..1 + |parts|]
      && (forall k :: |log0| <= k < |log| ==> respond(k).Accepted?)
    }

    /** One turn of the slice loop: the next `PartSize` bytes (or fewer, at the end) as the next part. */
    method SendSlice(key: string, payload: Bytes, ghost log0: seq<Call>, ghost plan: seq<Call>,
                     ghost bodies: seq<Bytes>, i: nat, parts: seq<Part>, number: nat)
      returns (i': nat, parts': seq<Part>, number': nat, err: Option<string>)
      requires i < |payload| && number == |parts| + 1
      requires SlicesUploading(key, payload, log0, plan, bodies, i, parts)
      modifies this`log
      ensures err.Some? ==> Issue(respond, log0, plan) == (log, err)
      ensures err.None? ==> i < i' && number' == |parts'| + 1
      ensures err.None? ==> SlicesUploading(key, payload, log0, plan, bodies, i', parts')
    {
      var end := if i + PartSize < |payload| then i + PartSize else |payload|;
      SlicesFrom(payload, i, end, bodies, |parts|);
      MultipartPlanAt(key, bodies, respond, |log0|);
      var reply := SendPlanned(UploadPart(key, number, payload[i..end]), log0, plan, 1 + |parts|);
      if reply.Rejected? {
        return i, parts, number, Some(reply.code);
      }
      PartsSnoc(|parts|, respond, |log0| + 1);
      i', parts', number', err := end, parts + [Part(number, reply.etag)], number + 1, None;
    }

    /** The last call of a multipart upload: complete it with every part, all earlier calls accepted. */
    method CompleteParts(key: string, all: seq<Part>, ghost log0: seq<Call>, ghost plan: seq<Call>)
      returns (r: Result<string, StorageError>)
      requires |plan| == |all| + 2 && plan[1 + |all|] == CompleteUpload(key, all)
      requires log == log0 + plan[..1 + |all|]
      requires forall k :: |log0| <= k < |log| ==> respond(k).Accepted?
      modifies this`log
      ensures var out := Issue(respond, log0, plan);
              log == out.0 && r == Outcome(key, out.1)
    {
      var reply := SendPlanned(CompleteUpload(key, all), log0, plan, 1 + |all|);
      r := if reply.Rejected? then Err(ClientError(reply.code)) else Ok(key);
      if reply.Accepted? {
        IssueAccepted(respond, log0, plan, |plan|);
        assert plan[..|plan|] == plan;
      }
    }

    /** The state of `stream_processed_text_data` before chunk `i`, against the plan it issues. */
    ghost predicate TextStreaming<T>(chunks: seq<T>, size: T -> nat, log0: seq<Call>, plan: seq<Call>,
                                     groups: seq<seq<T>>, i: nat, parts: seq<Part>, buffer: seq<T>,
                                     bufferSize: nat, done: seq<seq<T>>)
      reads this
    {
      && i <= |chunks|
      && groups == done + Flush(chunks[i..], size, buffer, bufferSize)
      && |parts| == |done|
      && parts == Parts(|parts|, respond, |log0| + 1)
      && 1 + |parts| <= |plan|
      && log == log0 + plan[..1 + |parts|]
      && (forall k :: |log0| <= k < |log| ==> respond(k).Accepted?)
    }

    /**
     * One turn of the chunk loop of `stream_processed_text_data`: the chunk joins the buffer,
     * and a buffer that has reached 5 MiB is uploaded as the next part and emptied.
     */
    method TakeChunk<T>(key: string, chunks: seq<T>, size: T -> nat, encode: seq<T> -> Bytes,
                        ghost log0: seq<Call>, ghost plan: seq<Call>, ghost groups: seq<seq<T>>,
                        i: nat, parts: seq<Part>, number: nat, buffer: seq<T>, bufferSize: nat,
                        ghost done: seq<seq<T>>)
      returns (parts': seq<Part>, number': nat, buffer': seq<T>, bufferSize': nat,
               ghost done': seq<seq<T>>, err: Option<string>)
      requires i < |chunks|
      requires plan == MultipartPlan(key, Encoded(groups, encode), respond, |log0|)
      requires number == |parts| + 1
      requires TextStreaming(chunks, size, log0, plan, groups, i, parts, buffer, bufferSize, done)
      modifies this`log
      ensures err.Some? ==> Issue(respond, log0, plan) == (log, err)
      ensures err.None? ==> number' == |parts'| + 1
      ensures err.None? ==> TextStreaming(chunks, size, log0, plan, groups, i + 1, parts', buffer', bufferSize', done')
    {
      FlushStep(chunks, i, size, buffer, bufferSize);
      parts', number', done', err := parts, number, done, None;
      buffer' := buffer + [chunks[i]];
      bufferSize' := bufferSize + size(chunks[i]);
      if bufferSize' >= PartSize {
        assert groups == (done + [buffer']) + Flush(chunks[i + 1..], size, [], 0);
        MultipartPlanAt(key, Encoded(groups, encode), respond, |log0|);
        var reply := SendPlanned(UploadPart(key, number, encode(buffer')), log0, plan, 1 + |parts|);
        if reply.Rejected? {
          return parts, number, buffer', bufferSize', done, Some(reply.code);
        }
        PartsSnoc(|parts|, respond, |log0| + 1);
        parts' := parts + [Part(number, reply.etag)];
        number' := number + 1;
        done' := done + [buffer'];
        buffer' := [];
        bufferSize' := 0;
      }
    }

    /**
     * `stream_processed_text_data`: creates the upload, buffers chunks and uploads the buffer
     * as the next part whenever its weight reaches 5 MiB, uploads what is left as a final
     * part, and completes with every part in order.
     */
    method StreamProcessedTextData<T>(source: string, chunks: seq<T>, filename: Option<string>,
                                      size: T -> nat, encode: seq<T> -> Bytes, date: Date, timestamp: string)
      returns (r: Result<string, StorageError>)
      modifies this`log
      ensures var key := TextKey(source, filename, timestamp, date);
              var out := Issue(respond, old(log), TextPlan(key, chunks, size, encode, respond, |old(log)|));
              log == out.0 && r == Outcome(key, out.1)
    {
      var key := TextKey(source, filename, timestamp, date);
      ghost var log0 := log;
      ghost var groups := Groups(chunks, size);
      ghost var plan := MultipartPlan(key, Encoded(groups, encode), respond, |log0|);
      MultipartPlanAt(key, Encoded(groups, encode), respond, |log0|);
      var reply := SendPlanned(CreateUpload(key), log0, plan, 0);
      if reply.Rejected? {
        return Err(ClientError(reply.code));
      }
      var parts: seq<Part> := [];
      var number := 1;
      var buffer: seq<T> := [];
      var bufferSize: nat := 0;
      ghost var done: seq<seq<T>> := [];
      var i := 0;
      while i < |chunks|
        invariant number == |parts| + 1
        invariant TextStreaming(chunks, size, log0, plan, groups, i, parts, buffer, bufferSize, done)
        decreases |chunks| - i
      {
        var err;
        parts, number, buffer, bufferSize, done, err :=
          TakeChunk(key, chunks, size, encode, log0, plan, groups, i, parts, number, buffer, bufferSize, done);
        if err.Some? {
          return Err(ClientError(err.value));
        }
        i := i + 1;
      }
      r := FinishText(key, chunks, size, encode, log0, plan, groups, parts, number, buffer, bufferSize, done);
    }

    /**
     * The end of `stream_processed_text_data`: a non-empty buffer is uploaded as the final part,
     * then the upload is completed with every part.
     */
    method FinishText<T>(key: string, chunks: seq<T>, size: T -> nat, encode: seq<T> -> Bytes,
                         ghost log0: seq<Call>, ghost plan: seq<Call>, ghost groups: seq<seq<T>>,
                         parts: seq<Part>, number: nat, buffer: seq<T>, bufferSize: nat,
                         ghost done: seq<seq<T>>)
      returns (r: Result<string, StorageError>)
      requires plan == MultipartPlan(key, Encoded(groups, encode), respond, |log0|)
      requires number == |parts| + 1
      requires TextStreaming(chunks, size, log0, plan, groups, |chunks|, parts, buffer, bufferSize, done)
      modifies this`log
      ensures var out := Issue(respond, log0, plan);
              log == out.0 && r == Outcome(key, out.1)
    {
      assert chunks[|chunks|..] == [];
      MultipartPlanAt(key, Encoded(groups, encode), respond, |log0|);
      var all := parts;
      ghost var flushed := done;
      var reply: Reply;
      if buffer != [] {
        assert groups == done + [buffer];
        reply := SendPlanned(UploadPart(key, number, encode(buffer)), log0, plan, 1 + |parts|);
        if reply.Rejected? {
          return Err(ClientError(reply.code));
        }
        PartsSnoc(|parts|, respond, |log0| + 1);
        all := parts + [Part(number, reply.etag)];
        flushed := done + [buffer];
      }
      assert groups == flushed && |all| == |groups|;
      r := CompleteParts(key, all, log0, plan);
    }

    /**
     * `store_processed_data`: one put of the data serialised in the requested format, or an
     * unsupported-format error before any call.
     */
    method StoreProcessedData<D>(source: string, data: D, format: string, filename: Option<string>,
                                 serialize: (string, D) -> Bytes, date: Date, timestamp: string)
      returns (r: Result<string, StorageError>)
      modifies this`log
      ensures var key := ProcessedKey(source, format, filename, timestamp, date);
              match FormatPut(key, format, serialize(format, data))
              case None => log == old(log) && r == Err(UnsupportedFormat(format))
              case Some(c) => var out := Issue(respond, old(log), [c]);
                              log == out.0 && r == Outcome(key, out.1)
    {
      var key := ProcessedKey(source, format, filename, timestamp, date);
      var put := FormatPut(key, format, serialize(format, data));
      if put.None? {
        return Err(UnsupportedFormat(format));
      }
      var reply := Send(put.value);
      r := if reply.Rejected? then Err(ClientError(reply.code)) else Ok(key);
    }

    /** `check_file_exists`: one head call, judged by `ExistsVerdict`. */
    method CheckFileExists(key: string) returns (r: Result<bool, StorageError>)
      modifies this`log
      ensures log == old(log) + [HeadObject(key)]
      ensures r == ExistsVerdict(respond(|old(log)|))
    {
      var reply := Send(HeadObject(key));
      r := ExistsVerdict(reply);
    }

    /** `list_files`: one listing call, judged by `Listing`. */
    method ListFiles(prefix: string) returns (r: Result<seq<string>, StorageError>)
      modifies this`log
      ensures log == old(log) + [ListObjects(prefix)]
      ensures r == Listing(respond(|old(log)|))
    {
      var reply := Send(ListObjects(prefix));
      r := Listing(reply);
    }
  }

  /** The constructor refuses a configuration missing the access key, the secret or the bucket. */
  method NewS3Storage(cfg: StorageConfig, respond: nat -> Reply) returns (r: Result<S3Storage, StorageError>)
    ensures r.Err? <==> !CredentialsPresent(cfg)
    ensures r.Err? ==> r.error == MissingCredentials
    ensures r.Ok? ==> fresh(r.value) && r.value.bucket == cfg.bucket && r.value.log == []
  {
    if !CredentialsPresent(cfg) {
      return Err(MissingCredentials);
    }
    var s := new S3Storage(cfg, respond);
    r := Ok(s);
  }
}
