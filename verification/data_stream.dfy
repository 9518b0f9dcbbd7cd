/** The ObjectDataOutput / ObjectDataInput streams, seen as sequences of typed
    primitives rather than bytes: `writeInt` appends an `I32`, `writeLong` an
    `I64`, and the matching reads consume them in the same order. */
module DataStream {
  import opened JavaTypes

  datatype Token = I32(i: Int32) | I64(l: Int64)

  /** Why reading a stream failed (the Java code throws an exception). */
  datatype DecodeError =
    | EndOfStream                        // EOFException: the stream ended early
    | UnexpectedToken(found: Token)      // a primitive of the wrong kind was next
    | IllegalCapacity(capacity: Int32)   // new HashSet(n) with n < 0
    | MalformedName                      // for a name codec to report bad name fields; the
                                         // codecs of this model never produce it

  datatype Result<+T> = Ok(value: T) | Err(error: DecodeError)

  /** `readInt`: consumes one `I32`. */
  function ReadInt(s: seq<Token>): (r: Result<(Int32, seq<Token>)>)
    ensures r.Ok? <==> |s| > 0 && s[0].I32?
    ensures r.Ok? ==> r.value.0 == s[0].i && r.value.1 == s[1..]
    ensures |s| == 0 ==> r == Err(EndOfStream)
  {
    if |s| == 0 then Err(EndOfStream)
    else if s[0].I32? then Ok((s[0].i, s[1..]))
    else Err(UnexpectedToken(s[0]))
  }

  /** `readLong`: consumes one `I64`. */
  function ReadLong(s: seq<Token>): (r: Result<(Int64, seq<Token>)>)
    ensures r.Ok? <==> |s| > 0 && s[0].I64?
    ensures r.Ok? ==> r.value.0 == s[0].l && r.value.1 == s[1..]
    ensures |s| == 0 ==> r == Err(EndOfStream)
  {
    if |s| == 0 then Err(EndOfStream)
    else if s[0].I64? then Ok((s[0].l, s[1..]))
    else Err(UnexpectedToken(s[0]))
  }

  /** One `writeLong` per value, in order. */
  function LongTokens(ids: seq<Int64>): (ts: seq<Token>)
    ensures |ts| == |ids|
    ensures forall k :: 0 <= k < |ids| ==> ts[k] == I64(ids[k])
  {
    if |ids| == 0 then [] else [I64(ids[0])] + LongTokens(ids[1..])
  }

  lemma LongTokensAppend(ids: seq<Int64>, id: Int64)
    ensures LongTokens(ids + [id]) == LongTokens(ids) + [I64(id)]
  {
  }

  /** The next `n` primitives of the stream are all longs. */
  predicate LongsAhead(s: seq<Token>, n: nat)
  {
    n <= |s| && forall k :: 0 <= k < n ==> s[k].I64?
  }

  /** The values carried by a run of `I64` primitives; inverse of `LongTokens`. */
  function LongValues(ts: seq<Token>): (ids: seq<Int64>)
    requires forall k :: 0 <= k < |ts| ==> ts[k].I64?
    ensures |ids| == |ts|
    ensures forall k :: 0 <= k < |ts| ==> ts[k] == I64(ids[k])
  {
    if |ts| == 0 then [] else [ts[0].l] + LongValues(ts[1..])
  }

  /** Writing longs and reading them back yields the same values. */
  lemma LongValuesOfLongTokens(ids: seq<Int64>)
    ensures LongValues(LongTokens(ids)) == ids
  {
    var v := LongValues(LongTokens(ids));
    assert forall k :: 0 <= k < |ids| ==> I64(v[k]) == I64(ids[k]);
  }

  /** Reading a run of longs and writing the values back gives the same run. */
  lemma LongTokensOfLongValues(ts: seq<Token>)
    requires forall k :: 0 <= k < |ts| ==> ts[k].I64?
    ensures LongTokens(LongValues(ts)) == ts
  {
    var t := LongTokens(LongValues(ts));
    assert forall k :: 0 <= k < |ts| ==> t[k] == ts[k];
  }
}
