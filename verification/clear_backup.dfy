/** ClearBackupOperation: the record a queue's owner sends to its backup
    replicas after a clear. Its body is the inherited queue-operation fields
    (the queue name), then a 32-bit count (the set's `size()`, capped at
    Integer.MAX_VALUE), then one 64-bit id per element. */
module ClearBackup {
  import opened JavaTypes
  import opened DataStream

  datatype ClearBackupOperation = ClearBackupOperation(name: string, itemIdSet: set<Int64>)

  /** The name fields written and read by the QueueOperation superclass,
      whose code is not part of this model: any pair of functions. */
  datatype NameCodec = NameCodec(
    write: string -> seq<Token>,
    read: seq<Token> -> Result<(string, seq<Token>)>)

  /** The superclass codec reads back what it wrote and stops right after it. */
  ghost predicate NameCodecRoundTrips(codec: NameCodec)
  {
    forall name, rest :: codec.read(codec.write(name) + rest) == Ok((name, rest))
  }

  /** `order` lists every id of `ids` once: one possible iteration order of
      the HashSet, which Java leaves unspecified. */
  predicate IsEnumeration(order: seq<Int64>, ids: set<Int64>)
  {
    Distinct(order) && Elements(order) == ids
  }

  // ---------------------------------------------------------------------
  // Writing

  /** The id-set section of `writeInternal`: `writeInt(size())`, then one
      `writeLong` per id, in iteration order `order`. */
  function IdSection(ids: set<Int64>, order: seq<Int64>): (out: seq<Token>)
    requires IsEnumeration(order, ids)
    ensures |out| == 1 + |ids|
    ensures out[0] == I32(JavaSize(ids))
    ensures LongsAhead(out[1..], |ids|)
    ensures Elements(LongValues(out[1..])) == ids
    ensures Distinct(LongValues(out[1..]))
  {
    ElementsCardinality(order);
    var out := [I32(JavaSize(ids))] + LongTokens(order);
    assert out[1..] == LongTokens(order);
    LongValuesOfLongTokens(order);
    out
  }

  /** `writeInternal`: the inherited name fields first, then the id section. */
  function WriteInternal(codec: NameCodec, op: ClearBackupOperation, order: seq<Int64>): (out: seq<Token>)
    requires IsEnumeration(order, op.itemIdSet)
    ensures |out| == |codec.write(op.name)| + 1 + |op.itemIdSet|
    ensures out[..|codec.write(op.name)|] == codec.write(op.name)
    ensures out[|codec.write(op.name)|] == I32(JavaSize(op.itemIdSet))
    ensures LongsAhead(out[|codec.write(op.name)| + 1..], |op.itemIdSet|)
    ensures Elements(LongValues(out[|codec.write(op.name)| + 1..])) == op.itemIdSet
  {
    var w := codec.write(op.name);
    var section := IdSection(op.itemIdSet, order);
    var out := w + section;
    assert out[..|w|] == w;
    assert out[|w|] == section[0];
    assert out[|w| + 1..] == section[1..];
    out
  }

  /** The Java for-each loop of `writeInternal` over the set: the count, then
      every id exactly once, in whatever order the set yields them. */
  method WriteIdSection(ids: set<Int64>) returns (out: seq<Token>)
    ensures |out| == 1 + |ids|
    ensures out[0] == I32(JavaSize(ids))
    ensures LongsAhead(out[1..], |ids|)
    ensures Distinct(LongValues(out[1..]))
    ensures Elements(LongValues(out[1..])) == ids
    ensures exists order :: IsEnumeration(order, ids) && out == IdSection(ids, order)
    ensures |ids| <= INT_MAX ==> ReadIdSection(out) == Ok((ids, []))
  {
    out := [I32(JavaSize(ids))];
    ghost var order: seq<Int64> := [];
    var remaining := ids;
    while remaining != {}
      invariant WriteLoopInvariant(ids, order, remaining, out)
      decreases remaining
    {
      var id :| id in remaining;
      WriteLoopStep(ids, order, remaining, out, id);
      out := out + [I64(id)];
      order := order + [id];
      remaining := remaining - {id};
    }
    WriteLoopDone(ids, order, out);
    if |ids| <= INT_MAX {
      IdSectionRoundTrip(ids, order, []);
      assert out + [] == out;
    }
  }

  /** While writing: `order` lists the ids written so far, once each, `out`
      holds the count and their longs, and `remaining` holds the rest. */
  ghost predicate WriteLoopInvariant(ids: set<Int64>, order: seq<Int64>, remaining: set<Int64>, out: seq<Token>)
  {
    && |Elements(order)| == |order|
    && Elements(order) !! remaining
    && Elements(order) + remaining == ids
    && out == [I32(JavaSize(ids))] + LongTokens(order)
  }

  /** Writing one more id keeps the loop invariant. */
  lemma WriteLoopStep(ids: set<Int64>, order: seq<Int64>, remaining: set<Int64>, out: seq<Token>, id: Int64)
    requires WriteLoopInvariant(ids, order, remaining, out)
    requires id in remaining
    ensures WriteLoopInvariant(ids, order + [id], remaining - {id}, out + [I64(id)])
  {
    var done := Elements(order);
    assert Elements(order + [id]) == done + {id} && id !in done by {
      ElementsAppend(order, id);
    }
    assert |done + {id}| == |done| + 1;
    assert out + [I64(id)] == [I32(JavaSize(ids))] + LongTokens(order + [id]) by {
      LongTokensAppend(order, id);
    }
  }

  /** Once nothing remains, `out` is the id section for the order written. */
  lemma WriteLoopDone(ids: set<Int64>, order: seq<Int64>, out: seq<Token>)
    requires WriteLoopInvariant(ids, order, {}, out)
    ensures |out| == 1 + |ids|
    ensures out[0] == I32(JavaSize(ids))
    ensures LongsAhead(out[1..], |ids|)
    ensures Distinct(LongValues(out[1..]))
    ensures Elements(LongValues(out[1..])) == ids
    ensures IsEnumeration(order, ids) && out == IdSection(ids, order)
  {
    ElementsCardinality(order);
    assert out == IdSection(ids, order);
  }

  // ---------------------------------------------------------------------
  // Reading

  /** The loop of `readInternal`: `size` times, `itemIdSet.add(readLong())`. */
  function ReadIdSet(size: nat, s: seq<Token>): (r: Result<(set<Int64>, seq<Token>)>)
    ensures r.Ok? <==> LongsAhead(s, size)
    ensures r.Ok? ==>
              && r.value.0 == Elements(LongValues(s[..size]))
              && r.value.1 == s[size..]
    ensures r.Err? && (forall k :: 0 <= k < |s| ==> s[k].I64?) ==> r == Err(EndOfStream)
    decreases size
  {
    if size == 0 then Ok(({}, s))
    else
      match ReadLong(s)
      case Err(e) => Err(e)
      case Ok((id, s1)) =>
        match ReadIdSet(size - 1, s1)
        case Err(e) => Err(e)
        case Ok((more, s2)) =>
          assert s[..size][1..] == s1[..size - 1];
          assert Elements(LongValues(s[..size])) == {id} + Elements(LongValues(s1[..size - 1])) by {
            assert LongValues(s[..size]) == [id] + LongValues(s1[..size - 1]);
          }
          Ok(({id} + more, s2))
  }

  /** The stream starts with a non-negative count followed by that many longs. */
  predicate CountedLongsAhead(s: seq<Token>)
  {
    |s| > 0 && s[0].I32? && s[0].i >= 0 && LongsAhead(s[1..], s[0].i)
  }

  /** The id section of `readInternal`: `readInt`, `new HashSet(size)`, the
      loop. A negative count is rejected as HashSet's constructor rejects it. */
  function ReadIdSection(s: seq<Token>): (r: Result<(set<Int64>, seq<Token>)>)
    ensures r.Ok? <==> CountedLongsAhead(s)
    ensures r.Ok? ==>
              && r.value.0 == Elements(LongValues(s[1..1 + s[0].i]))
              && |r.value.0| <= s[0].i
              && r.value.1 == s[1 + s[0].i..]
    ensures |s| > 0 && s[0].I32? && s[0].i < 0 ==> r == Err(IllegalCapacity(s[0].i))
    ensures |s| == 0 ==> r == Err(EndOfStream)
  {
    match ReadInt(s)
    case Err(e) => Err(e)
    case Ok((size, s1)) =>
      if size < 0 then Err(IllegalCapacity(size))
      else
        var r := ReadIdSet(size, s1);
        if r.Ok? then
          ElementsCardinality(LongValues(s1[..size]));
          assert s1[..size] == s[1..1 + size];
          r
        else r
  }

  /** `readInternal`: the inherited name fields first, then the id section. */
  function ReadInternal(codec: NameCodec, s: seq<Token>): (r: Result<(ClearBackupOperation, seq<Token>)>)
    ensures r.Ok? <==> codec.read(s).Ok? && ReadIdSection(codec.read(s).value.1).Ok?
    ensures r.Ok? ==> r.value.0.name == codec.read(s).value.0
    ensures r.Ok? ==> r.value.0.itemIdSet == ReadIdSection(codec.read(s).value.1).value.0
    ensures r.Ok? ==> r.value.1 == ReadIdSection(codec.read(s).value.1).value.1
    ensures codec.read(s).Err? ==> r == Err(codec.read(s).error)
    ensures codec.read(s).Ok? && ReadIdSection(codec.read(s).value.1).Err?
            ==> r == Err(ReadIdSection(codec.read(s).value.1).error)
  {
    match codec.read(s)
    case Err(e) => Err(e)
    case Ok((name, s1)) =>
      match ReadIdSection(s1)
      case Err(e) => Err(e)
      case Ok((ids, s2)) => Ok((ClearBackupOperation(name, ids), s2))
  }

  // ---------------------------------------------------------------------
  // Running and dispatch

  /** A call the operation makes on the queue container (whose code is not
      part of this model). */
  datatype ContainerCall = ClearBackupCall(queueName: string, itemIds: set<Int64>)

  /** What `run` does: the calls it makes on the container, and the response. */
  datatype RunOutcome = RunOutcome(calls: seq<ContainerCall>, response: bool)

  /** `run`: hand the id set to the named container's `clearBackup`, answer true. */
  function Run(op: ClearBackupOperation): (r: RunOutcome)
    ensures |r.calls| == 1
    ensures r.calls[0].queueName == op.name && r.calls[0].itemIds == op.itemIdSet
    ensures r.response
  {
    RunOutcome([ClearBackupCall(op.name, op.itemIdSet)], true)
  }

  /** `getId`: the serializer-hook constant CLEAR_BACKUP (defined in
      QueueDataSerializerHook, not part of this model, hence a parameter). */
  function GetId(op: ClearBackupOperation, clearBackupId: Int32): (id: Int32)
    ensures id == clearBackupId
  {
    clearBackupId
  }

  // ---------------------------------------------------------------------
  // Properties of the codec and of run

  /** The id section read back gives the written set, and stops right after
      it, whatever the iteration order, as long as the count fits in an int. */
  lemma {:induction false} IdSectionRoundTrip(ids: set<Int64>, order: seq<Int64>, rest: seq<Token>)
    requires IsEnumeration(order, ids)
    requires |ids| <= INT_MAX
    ensures ReadIdSection(IdSection(ids, order) + rest) == Ok((ids, rest))
  {
    var n := |order|;
    assert JavaSize(ids) == n by {
      ElementsCardinality(order);
    }
    var s := IdSection(ids, order) + rest;
    assert s[0] == I32(n) && s[1..1 + n] == LongTokens(order) && s[1 + n..] == rest by {
      assert IdSection(ids, order) == [I32(n)] + LongTokens(order);
    }
    assert CountedLongsAhead(s);
    assert Elements(LongValues(s[1..1 + n])) == ids by {
      LongValuesOfLongTokens(order);
    }
  }

  /** Round trip: decoding what `writeInternal` produced gives back the same
      queue name and the same id set, and consumes exactly the tokens written. */
  lemma {:induction false} RoundTrip(codec: NameCodec, op: ClearBackupOperation, order: seq<Int64>, rest: seq<Token>)
    requires NameCodecRoundTrips(codec)
    requires IsEnumeration(order, op.itemIdSet)
    requires |op.itemIdSet| <= INT_MAX
    ensures ReadInternal(codec, WriteInternal(codec, op, order) + rest) == Ok((op, rest))
  {
    var w := codec.write(op.name);
    var section := IdSection(op.itemIdSet, order);
    assert WriteInternal(codec, op, order) + rest == w + (section + rest);
    assert codec.read(w + (section + rest)) == Ok((op.name, section + rest));
    IdSectionRoundTrip(op.itemIdSet, order, rest);
  }

  /** The HashSet iteration order chosen by the writer is invisible to the
      reader: any two enumerations of the set decode to the same record. */
  lemma {:induction false} DecodingIgnoresIterationOrder(codec: NameCodec, op: ClearBackupOperation,
                                                         order1: seq<Int64>, order2: seq<Int64>)
    requires NameCodecRoundTrips(codec)
    requires IsEnumeration(order1, op.itemIdSet) && IsEnumeration(order2, op.itemIdSet)
    requires |op.itemIdSet| <= INT_MAX
    ensures ReadInternal(codec, WriteInternal(codec, op, order1))
         == ReadInternal(codec, WriteInternal(codec, op, order2))
  {
    RoundTrip(codec, op, order1, []);
    RoundTrip(codec, op, order2, []);
    assert WriteInternal(codec, op, order1) + [] == WriteInternal(codec, op, order1);
    assert WriteInternal(codec, op, order2) + [] == WriteInternal(codec, op, order2);
  }

  /** A set larger than Integer.MAX_VALUE does not survive: `size()` saturates,
      so the reader takes too few ids. */
  lemma {:induction false} OversizedSetDoesNotRoundTrip(codec: NameCodec, op: ClearBackupOperation,
                                                        order: seq<Int64>, rest: seq<Token>)
    requires NameCodecRoundTrips(codec)
    requires IsEnumeration(order, op.itemIdSet)
    requires |op.itemIdSet| > INT_MAX
    ensures ReadInternal(codec, WriteInternal(codec, op, order) + rest) != Ok((op, rest))
  {
    var w := codec.write(op.name);
    var section := IdSection(op.itemIdSet, order);
    assert WriteInternal(codec, op, order) + rest == w + (section + rest);
    assert codec.read(w + (section + rest)) == Ok((op.name, section + rest));
    var t := section + rest;
    assert t[0] == I32(INT_MAX);
    var r := ReadIdSection(t);
    if r.Ok? {
      assert |r.value.0| <= INT_MAX;
    }
  }

  /** A strict prefix of an id section is rejected as ending early. */
  lemma {:induction false} TruncatedIdSectionFails(ids: set<Int64>, order: seq<Int64>, j: nat)
    requires IsEnumeration(order, ids)
    requires |ids| <= INT_MAX
    requires j < |IdSection(ids, order)|
    ensures ReadIdSection(IdSection(ids, order)[..j]) == Err(EndOfStream)
  {
    var section := IdSection(ids, order);
    var cut := section[..j];
    if |cut| > 0 {
      assert cut[0] == I32(|ids|);
      var longs := cut[1..];
      assert |longs| < |ids|;
      assert forall i :: 0 <= i < |longs| ==> longs[i] == section[1..][i];
      assert ReadIdSet(|ids|, longs) == Err(EndOfStream);
    }
  }

  /** A stream cut anywhere after the name fields and before the last id is
      rejected as ending early, never decoded into a smaller set. */
  lemma {:induction false} TruncatedRecordFails(codec: NameCodec, op: ClearBackupOperation,
                                                order: seq<Int64>, k: nat)
    requires NameCodecRoundTrips(codec)
    requires IsEnumeration(order, op.itemIdSet)
    requires |op.itemIdSet| <= INT_MAX
    requires |codec.write(op.name)| <= k < |WriteInternal(codec, op, order)|
    ensures ReadInternal(codec, WriteInternal(codec, op, order)[..k]) == Err(EndOfStream)
  {
    var w := codec.write(op.name);
    var section := IdSection(op.itemIdSet, order);
    var cut := section[..k - |w|];
    var s := WriteInternal(codec, op, order)[..k];
    assert s == w + cut by {
      WrittenPrefix(codec, op, order, k);
    }
    assert codec.read(s) == Ok((op.name, cut)) by {
      assert codec.read(w + cut) == Ok((op.name, cut));
    }
    assert ReadIdSection(cut) == Err(EndOfStream) by {
      assert k - |w| < |section|;
      TruncatedIdSectionFails(op.itemIdSet, order, k - |w|);
    }
    assert ReadInternal(codec, s) == Err(EndOfStream);
  }

  /** A cut of the record past its name fields is the name fields followed
      by a cut of the id section. */
  lemma WrittenPrefix(codec: NameCodec, op: ClearBackupOperation, order: seq<Int64>, k: nat)
    requires IsEnumeration(order, op.itemIdSet)
    requires |codec.write(op.name)| <= k <= |WriteInternal(codec, op, order)|
    ensures WriteInternal(codec, op, order)[..k]
         == codec.write(op.name) + IdSection(op.itemIdSet, order)[..k - |codec.write(op.name)|]
  {
    assert WriteInternal(codec, op, order) == codec.write(op.name) + IdSection(op.itemIdSet, order);
  }

  /** The decoded set holds exactly `count` ids when the longs read are all
      different, and fewer when some repeat. */
  lemma {:induction false} DecodedSizeIsCountIffDistinct(s: seq<Token>)
    requires ReadIdSection(s).Ok?
    ensures |ReadIdSection(s).value.0| == s[0].i <==> Distinct(LongValues(s[1..1 + s[0].i]))
  {
    ElementsCardinality(LongValues(s[1..1 + s[0].i]));
  }

  /** A counted run of longs is its count, the longs' values written back,
      and whatever follows. */
  lemma CountedLongsSplit(s: seq<Token>)
    requires CountedLongsAhead(s)
    ensures s == [I32(s[0].i)] + LongTokens(LongValues(s[1..1 + s[0].i])) + s[1 + s[0].i..]
  {
    var body := s[1..1 + s[0].i];
    LongTokensOfLongValues(body);
    assert s == [s[0]] + body + s[1 + s[0].i..];
  }

  /** The converse of the round trip: a decoded id section whose longs are all
      different is exactly the section written for that set in the order read,
      followed by the unread rest. */
  lemma {:induction false} DecodeThenEncode(s: seq<Token>)
    requires ReadIdSection(s).Ok?
    requires Distinct(LongValues(s[1..1 + s[0].i]))
    ensures IsEnumeration(LongValues(s[1..1 + s[0].i]), ReadIdSection(s).value.0)
    ensures s == IdSection(ReadIdSection(s).value.0, LongValues(s[1..1 + s[0].i])) + ReadIdSection(s).value.1
  {
    var n := s[0].i;
    var longs := LongValues(s[1..1 + n]);
    var ids := ReadIdSection(s).value.0;
    var rest := ReadIdSection(s).value.1;
    assert ids == Elements(longs) && rest == s[1 + n..];
    assert JavaSize(ids) == n by {
      ElementsCardinality(longs);
    }
    assert IdSection(ids, longs) == [I32(n)] + LongTokens(longs);
    CountedLongsSplit(s);
  }

  /** Repeated ids in the stream are read, but collapse in the set. */
  lemma DuplicateIdsCollapse()
    ensures ReadIdSection([I32(3), I64(7), I64(7), I64(9), I32(1)]) == Ok(({7, 9}, [I32(1)]))
  {
    var s := [I32(3), I64(7), I64(7), I64(9), I32(1)];
    assert s[1..4] == [I64(7), I64(7), I64(9)];
    assert LongValues(s[1..4]) == [7, 7, 9];
    assert Elements([7, 7, 9]) == {7, 9};
  }

  /** On the backup, running the decoded record hands the container exactly
      the id set the owner sent, for that queue, and answers true. */
  lemma {:induction false} BackupClearsExactlySentIds(codec: NameCodec, op: ClearBackupOperation,
                                                      order: seq<Int64>, rest: seq<Token>)
    requires NameCodecRoundTrips(codec)
    requires IsEnumeration(order, op.itemIdSet)
    requires |op.itemIdSet| <= INT_MAX
    ensures ReadInternal(codec, WriteInternal(codec, op, order) + rest).Ok?
    ensures Run(ReadInternal(codec, WriteInternal(codec, op, order) + rest).value.0)
         == RunOutcome([ClearBackupCall(op.name, op.itemIdSet)], true)
  {
    RoundTrip(codec, op, order, rest);
  }

  /** The record's type id does not depend on its payload. */
  lemma GetIdIgnoresPayload(a: ClearBackupOperation, b: ClearBackupOperation, clearBackupId: Int32)
    ensures GetId(a, clearBackupId) == GetId(b, clearBackupId) == clearBackupId
  {
  }
}
