/** PortableContextAwareInputStream: the versioned-record context an input
    stream carries (factory id, data class id, data version), consulted by a
    receiver to pick the decoding logic for a record type and version. */
module PortableContext {
  import opened JavaTypes

  /** The three `int` fields of the stream, as a value. */
  datatype Context = Context(factoryId: Int32, dataClassId: Int32, dataVersion: Int32)

  /** A newly constructed stream: every field holds Java's `int` default. */
  function Fresh(): (c: Context)
    ensures c.factoryId == 0 && c.dataClassId == 0 && c.dataVersion == 0
  {
    Context(0, 0, 0)
  }

  /** `setFactoryId`: replaces the factory id and nothing else. */
  function WithFactoryId(c: Context, v: Int32): (c': Context)
    ensures c'.factoryId == v
    ensures c'.dataClassId == c.dataClassId && c'.dataVersion == c.dataVersion
  {
    c.(factoryId := v)
  }

  /** `setDataClassId`: replaces the class id and nothing else. */
  function WithDataClassId(c: Context, v: Int32): (c': Context)
    ensures c'.dataClassId == v
    ensures c'.factoryId == c.factoryId && c'.dataVersion == c.dataVersion
  {
    c.(dataClassId := v)
  }

  /** `setDataVersion`: replaces the version and nothing else. */
  function WithDataVersion(c: Context, v: Int32): (c': Context)
    ensures c'.dataVersion == v
    ensures c'.factoryId == c.factoryId && c'.dataClassId == c.dataClassId
  {
    c.(dataVersion := v)
  }

  /** Setting a field twice keeps only the last value; setting a field to the
      value it already holds changes nothing. */
  lemma SettersOverwriteAndAreIdempotent(c: Context, v: Int32, u: Int32)
    ensures WithFactoryId(WithFactoryId(c, v), u) == WithFactoryId(c, u)
    ensures WithDataClassId(WithDataClassId(c, v), u) == WithDataClassId(c, u)
    ensures WithDataVersion(WithDataVersion(c, v), u) == WithDataVersion(c, u)
    ensures WithFactoryId(c, c.factoryId) == c
    ensures WithDataClassId(c, c.dataClassId) == c
    ensures WithDataVersion(c, c.dataVersion) == c
  {
  }

  /** Setters of different fields do not interfere: their order is irrelevant. */
  lemma SettersCommute(c: Context, f: Int32, k: Int32, v: Int32)
    ensures WithDataClassId(WithFactoryId(c, f), k) == WithFactoryId(WithDataClassId(c, k), f)
    ensures WithDataVersion(WithFactoryId(c, f), v) == WithFactoryId(WithDataVersion(c, v), f)
    ensures WithDataVersion(WithDataClassId(c, k), v) == WithDataClassId(WithDataVersion(c, v), k)
  {
  }

  /** Setting all three fields from a fresh stream yields exactly those values,
      whatever the order the framework sets them in. */
  lemma {:induction false} HeaderFromFresh(f: Int32, k: Int32, v: Int32)
    ensures WithDataVersion(WithDataClassId(WithFactoryId(Fresh(), f), k), v) == Context(f, k, v)
    ensures WithFactoryId(WithDataClassId(WithDataVersion(Fresh(), v), k), f) == Context(f, k, v)
  {
  }

  /** The stream object itself, with its three mutable fields. Getters have no
      `modifies` clause, so they cannot change the stream. */
  class ContextAwareStream {
    var factoryId: Int32
    var dataClassId: Int32
    var dataVersion: Int32

    /** The fields as a `Context` value. */
    function State(): Context
      reads this
    {
      Context(factoryId, dataClassId, dataVersion)
    }

    constructor()
      ensures State() == Fresh()
    {
      factoryId := 0;
      dataClassId := 0;
      dataVersion := 0;
    }

    method GetFactoryId() returns (r: Int32)
      ensures r == State().factoryId
    {
      r := factoryId;
    }

    method SetFactoryId(v: Int32)
      modifies this
      ensures State() == WithFactoryId(old(State()), v)
    {
      factoryId := v;
    }

    method GetDataClassId() returns (r: Int32)
      ensures r == State().dataClassId
    {
      r := dataClassId;
    }

    method SetDataClassId(classId: Int32)
      modifies this
      ensures State() == WithDataClassId(old(State()), classId)
    {
      dataClassId := classId;
    }

    method GetDataVersion() returns (r: Int32)
      ensures r == State().dataVersion
    {
      r := dataVersion;
    }

    method SetDataVersion(v: Int32)
      modifies this
      ensures State() == WithDataVersion(old(State()), v)
    {
      dataVersion := v;
    }
  }

  /** The three header fields a framework sets on a stream before decoding. */
  datatype Field = FactoryIdField | DataClassIdField | DataVersionField

  /** A receiver's view: a new stream has its header fields set through the
      setters, in the order given (each field at least once), and then
      the getters answer exactly the values that were set. */
  method ReceiveHeader(order: seq<Field>, f: Int32, k: Int32, v: Int32)
      returns (gotFactoryId: Int32, gotDataClassId: Int32, gotDataVersion: Int32)
    requires FactoryIdField in order && DataClassIdField in order && DataVersionField in order
    ensures gotFactoryId == f && gotDataClassId == k && gotDataVersion == v
  {
    var stream := new ContextAwareStream();
    var i := 0;
    while i < |order|
      invariant 0 <= i <= |order|
      invariant stream.factoryId == (if FactoryIdField in order[..i] then f else 0)
      invariant stream.dataClassId == (if DataClassIdField in order[..i] then k else 0)
      invariant stream.dataVersion == (if DataVersionField in order[..i] then v else 0)
    {
      assert order[..i + 1] == order[..i] + [order[i]];
      match order[i] {
        case FactoryIdField => stream.SetFactoryId(f);
        case DataClassIdField => stream.SetDataClassId(k);
        case DataVersionField => stream.SetDataVersion(v);
      }
      i := i + 1;
    }
    assert order[..|order|] == order;
    gotFactoryId := stream.GetFactoryId();
    gotDataClassId := stream.GetDataClassId();
    gotDataVersion := stream.GetDataVersion();
  }
}
