# Queue clear-backup record and portable stream context (Hazelcast), in Dafny

This project models two small pieces of the wire layer that Hazelcast cluster
members use to exchange queue operations.

1. **`ClearBackupOperation`**: the record a queue's partition owner sends to its
   backup replicas after a `clear`. Its body is the fields inherited from
   `QueueOperation` (the queue name), then a 32-bit count (the set's `size()`, capped
   at Integer.MAX_VALUE), then one 64-bit id per element. Reading it rebuilds a `HashSet<Long>`. `run` hands that set to the
   queue container's `clearBackup` and answers `true`. `getId` returns the
   serializer-hook constant `CLEAR_BACKUP`.
2. **`PortableContextAwareInputStream`**: the versioned-record context an input
   stream carries. It has three `int` fields (factory id, data class id, data
   version), each with a getter and a setter. A receiver reads them to pick the
   decoding logic for a record type and version.

Files:

- `java_types.dfy` (`JavaTypes`): Java `int`/`long` ranges as subset types. It also holds
  `Set.size()` as Java specifies it (it saturates at `Integer.MAX_VALUE`) and a
  few facts about the elements of a sequence.
- `data_stream.dfy` (`DataStream`): `ObjectDataOutput`/`ObjectDataInput` seen as
  a sequence of typed primitives. `writeInt` appends `I32(v)` and `writeLong`
  appends `I64(v)`. The reads consume them in order. A read either returns
  `Ok((value, rest))` or a `DecodeError`, which stands for the exception Java
  throws.
- `clear_backup.dfy` (`ClearBackup`): the record, `writeInternal`,
  `readInternal`, `run` and `getId`, plus the lemmas about them.
- `portable_context.dfy` (`PortableContext`): the context as an immutable value
  with update functions, and as a class with three mutable fields. The class's
  methods are proved to follow the value-level updates.

Modelling choices:

- The name fields written by the superclass are not part of this model. They
  are a `NameCodec` parameter: a pair of functions. The round-trip lemmas
  require only that this codec reads back what it wrote and stops right after
  it (`NameCodecRoundTrips`).
- Java leaves the iteration order of a `HashSet` unspecified. Writing is
  therefore defined for any *enumeration* of the set, meaning a sequence that
  lists each id exactly once. The method `WriteIdSection` is the Java
  for-each loop, with the set's iteration order chosen arbitrarily.
- The `size()` written is Java's `Set.size()`, which caps at
  `Integer.MAX_VALUE`. The round trip therefore needs a set of at most that
  many ids, and `OversizedSetDoesNotRoundTrip` shows what happens beyond it.
- `new HashSet<Long>(size)` with a negative `size` throws
  `IllegalArgumentException`. This is modelled as `Err(IllegalCapacity(size))`.
  A stream that ends early is `Err(EndOfStream)`. A primitive of the wrong kind
  where a read expects another is `Err(UnexpectedToken(t))`. Byte streams have
  no such kind tags, so that error exists only at this token level.
- `run` is modelled as the calls it makes on the container plus its response.
  The container's code is not part of this model, so nothing is claimed about
  what `clearBackup` does.
- The stream context's setters may be called any number of times and in any
  order. Nothing in the Java class restricts them, and the model does not
  either.

## Model

| member | source | states |
|---|---|---|
| ClearBackup.IdSection | hazelcast/src/main/java/com/hazelcast/queue/ClearBackupOperation.java:49-52 | The id section is one int holding `size()` (the number of ids, capped at Integer.MAX_VALUE), then one long per id (number of ids + 1 primitives). The longs are pairwise distinct and their values are exactly the set. |
| ClearBackup.WriteInternal | hazelcast/src/main/java/com/hazelcast/queue/ClearBackupOperation.java:47-53 | The output starts with the inherited name fields. The count follows them, and then longs whose values are exactly the id set. Its length is the name fields' length + 1 + the number of ids. |
| ClearBackup.WriteIdSection | hazelcast/src/main/java/com/hazelcast/queue/ClearBackupOperation.java:49-52 | The for-each loop over the set writes the count, then one long per element of the set (as many longs as the set has elements, which can exceed the saturated size()). The longs are pairwise distinct and their values are exactly the set, whatever order the set yields them in. The output is `IdSection` of the set for some enumeration of it, and when the set has at most Integer.MAX_VALUE ids, reading it back gives the set and nothing left over. |
| ClearBackup.ReadIdSet | hazelcast/src/main/java/com/hazelcast/queue/ClearBackupOperation.java:59-61 | Reading `size` longs succeeds exactly when the next `size` primitives are all longs. The result is the set of exactly those values, and the rest of the stream after them is left unread. A stream of longs that ends too soon fails with EndOfStream. |
| ClearBackup.ReadIdSection | hazelcast/src/main/java/com/hazelcast/queue/ClearBackupOperation.java:57-61 | Reads the count, then that many longs, and returns a set of at most `count` ids, all of them values read. A negative count fails with IllegalCapacity. An empty stream fails with EndOfStream. It succeeds exactly when a non-negative int is followed by that many longs. |
| ClearBackup.ReadInternal | hazelcast/src/main/java/com/hazelcast/queue/ClearBackupOperation.java:55-62 | Reads the inherited name fields first and the id section from the stream they leave. It succeeds exactly when both succeed. An error in the name fields is passed through unchanged. |
| ClearBackup.IdSectionRoundTrip | hazelcast/src/main/java/com/hazelcast/queue/ClearBackupOperation.java:49-61 | Reading back an id section written in any enumeration order gives the same set, for a set of at most Integer.MAX_VALUE ids. It consumes exactly the section and leaves what follows. |
| ClearBackup.RoundTrip | hazelcast/src/main/java/com/hazelcast/queue/ClearBackupOperation.java:47-62 | Reading what `writeInternal` wrote gives back the same queue name and id set, for a set of at most Integer.MAX_VALUE ids. It consumes exactly the primitives written, provided the name codec round-trips. |
| ClearBackup.DecodeThenEncode | hazelcast/src/main/java/com/hazelcast/queue/ClearBackupOperation.java:49-61 | The converse of the round trip: a decoded id section whose longs are pairwise distinct is exactly the section written for the decoded set in the order read, followed by the unread rest. |
| ClearBackup.DecodingIgnoresIterationOrder | hazelcast/src/main/java/com/hazelcast/queue/ClearBackupOperation.java:50-52 | Two different iteration orders of the same set decode to the same record, for a set of at most Integer.MAX_VALUE ids. |
| ClearBackup.OversizedSetDoesNotRoundTrip | hazelcast/src/main/java/com/hazelcast/queue/ClearBackupOperation.java:49 | With more than Integer.MAX_VALUE ids, the saturated `size()` makes the reader return something other than the record and the unread rest. |
| ClearBackup.TruncatedIdSectionFails | hazelcast/src/main/java/com/hazelcast/queue/ClearBackupOperation.java:57-61 | Every strict prefix of an id section fails with EndOfStream, for a set of at most Integer.MAX_VALUE ids. |
| ClearBackup.TruncatedRecordFails | hazelcast/src/main/java/com/hazelcast/queue/ClearBackupOperation.java:55-61 | A record cut anywhere between the end of its name fields and its last id fails with EndOfStream, for a set of at most Integer.MAX_VALUE ids. It never decodes to a smaller set. |
| ClearBackup.DecodedSizeIsCountIffDistinct | hazelcast/src/main/java/com/hazelcast/queue/ClearBackupOperation.java:58-61 | The decoded set has exactly `count` ids if and only if the longs read are pairwise distinct. Otherwise it has fewer. |
| ClearBackup.DuplicateIdsCollapse | hazelcast/src/main/java/com/hazelcast/queue/ClearBackupOperation.java:57-61 | Example: the count 3 followed by the ids 7, 7, 9 decodes to {7, 9}. Reading stops before the next primitive. |
| ClearBackup.Run | hazelcast/src/main/java/com/hazelcast/queue/ClearBackupOperation.java:42-45 | `run` makes exactly one container call, `clearBackup` on the record's queue with the record's id set, and answers true. |
| ClearBackup.BackupClearsExactlySentIds | hazelcast/src/main/java/com/hazelcast/queue/ClearBackupOperation.java:42-62 | On the backup, running the record decoded from the owner's encoding calls `clearBackup` once. The call names the owner's queue and passes exactly the owner's id set, for a set of at most Integer.MAX_VALUE ids. The response is true. |
| ClearBackup.GetId | hazelcast/src/main/java/com/hazelcast/queue/ClearBackupOperation.java:64-66 | `getId` answers the serializer hook's CLEAR_BACKUP constant. |
| ClearBackup.GetIdIgnoresPayload | hazelcast/src/main/java/com/hazelcast/queue/ClearBackupOperation.java:64-66 | The type id is the CLEAR_BACKUP constant for every record, whatever its name and ids. |
| PortableContext.Fresh | hazelcast/src/main/java/com/hazelcast/nio/serialization/PortableContextAwareInputStream.java:26-30 | A new stream has factory id, class id and version all 0, the Java `int` default. |
| PortableContext.WithFactoryId | hazelcast/src/main/java/com/hazelcast/nio/serialization/PortableContextAwareInputStream.java:36-38 | After `setFactoryId(v)` the factory id is v. Class id and version are unchanged. |
| PortableContext.WithDataClassId | hazelcast/src/main/java/com/hazelcast/nio/serialization/PortableContextAwareInputStream.java:44-46 | After `setDataClassId(v)` the class id is v. Factory id and version are unchanged. |
| PortableContext.WithDataVersion | hazelcast/src/main/java/com/hazelcast/nio/serialization/PortableContextAwareInputStream.java:52-54 | After `setDataVersion(v)` the version is v. Factory id and class id are unchanged. |
| PortableContext.SettersOverwriteAndAreIdempotent | hazelcast/src/main/java/com/hazelcast/nio/serialization/PortableContextAwareInputStream.java:36-54 | Setting a field twice leaves only the last value. Setting a field to its current value changes nothing. |
| PortableContext.SettersCommute | hazelcast/src/main/java/com/hazelcast/nio/serialization/PortableContextAwareInputStream.java:36-54 | Setters of different fields can be applied in either order with the same result. |
| PortableContext.HeaderFromFresh | hazelcast/src/main/java/com/hazelcast/nio/serialization/PortableContextAwareInputStream.java:26-54 | Setting all three fields on a new stream, in either order, yields exactly the header (f, k, v). |
| PortableContext.ContextAwareStream.constructor | hazelcast/src/main/java/com/hazelcast/nio/serialization/PortableContextAwareInputStream.java:26-30 | A newly constructed stream holds factory id, class id and version 0. |
| PortableContext.ContextAwareStream.GetFactoryId | hazelcast/src/main/java/com/hazelcast/nio/serialization/PortableContextAwareInputStream.java:32-34 | `getFactoryId` returns the factory id field. It has no `modifies` clause, so it changes no field. |
| PortableContext.ContextAwareStream.SetFactoryId | hazelcast/src/main/java/com/hazelcast/nio/serialization/PortableContextAwareInputStream.java:36-38 | After `setFactoryId(v)` the stream's state is the old state with the factory id replaced by v, and nothing else changed. |
| PortableContext.ContextAwareStream.GetDataClassId | hazelcast/src/main/java/com/hazelcast/nio/serialization/PortableContextAwareInputStream.java:40-42 | `getDataClassId` returns the class id field. It has no `modifies` clause, so it changes no field. |
| PortableContext.ContextAwareStream.SetDataClassId | hazelcast/src/main/java/com/hazelcast/nio/serialization/PortableContextAwareInputStream.java:44-46 | After `setDataClassId(v)` the stream's state is the old state with the class id replaced by v, and nothing else changed. |
| PortableContext.ContextAwareStream.GetDataVersion | hazelcast/src/main/java/com/hazelcast/nio/serialization/PortableContextAwareInputStream.java:48-50 | `getDataVersion` returns the version field. It has no `modifies` clause, so it changes no field. |
| PortableContext.ContextAwareStream.SetDataVersion | hazelcast/src/main/java/com/hazelcast/nio/serialization/PortableContextAwareInputStream.java:52-54 | After `setDataVersion(v)` the stream's state is the old state with the version replaced by v, and nothing else changed. |
| PortableContext.ReceiveHeader | hazelcast/src/main/java/com/hazelcast/nio/serialization/PortableContextAwareInputStream.java:26-54 | On a new stream, calling the three setters in any order (each at least once, repeats allowed) makes the three getters return exactly the values set. |

The class `PortableContext.ContextAwareStream` mirrors the Java object. Its
getters (`GetFactoryId`, `GetDataClassId`, `GetDataVersion`) have no `modifies`
clause, so they cannot change any field. Each getter returns its field. Each
setter leaves the object in the state the matching `With…` function computes
from the old state.

## Left out

- `QueueProxySupport.java`: the proxy façade is left out. It invokes operations on partitions through an operation service that is not part of this model. It waits on futures, rethrows exceptions, and instantiates listeners by reflection.
- The `QueueOperation` superclass's name serialisation is not part of this model. It appears only as the `NameCodec` parameter, which is assumed to round-trip.
- `getOrCreateContainer` and the container's `clearBackup` are not part of this model. `run` records the call it makes and claims nothing about the container's effect, such as idempotence or removal.
- ClearBackup.Run: assumes `getOrCreateContainer` and `clearBackup` return normally. If either throws, Java's `run` passes the exception on and never sets the response, while the model always answers true.
- ClearBackup.GetId: `CLEAR_BACKUP` is defined in `QueueDataSerializerHook`, which is not part of this model. The constant's value is therefore a parameter. The contract states that the id is that constant, whatever the payload.
- The record is modelled as a snapshot value. The Java constructor keeps a reference to the caller's set rather than a copy (`ClearBackupOperation.java:39`). A change the caller makes to that set afterwards would show in what `writeInternal` writes and in what `run` passes on. That aliasing is not modelled.
- `null` is not modelled. A record built with the no-argument constructor and never read has a `null` set, and the set may hold a `null` element. In `writeInternal` both throw `NullPointerException`: the first at `size()`, the second when unboxing. `run` hands such a set to `clearBackup` unchanged. The model's sets hold `long` values only.
- Byte-level layout and endianness of `ObjectDataOutput` are not modelled. The stream is a sequence of typed int/long primitives.
- The `InputStream` read machinery that `PortableContextAwareInputStream` inherits is left out. So are the subclasses that set its fields and the writing of the header onto the wire: none of that code is part of this model.
- Partition routing, retries, the order in which backups are dispatched, and replica acknowledgement are distributed, concurrent behaviour outside these two classes.
