# A verified model of the go-control-plane encoders, validators and linear cache

The project models three parts of go-control-plane and proves what they are for.

1. **The back-to-front Protocol Buffers encoders** generated for the Envoy API. `SizeVT` counts bytes,
   `MarshalToSizedBufferVTStrict` fills a buffer from its end, and the two are written separately. Each
   marshal function is a method on an `array<byte>` that moves an index down, and each size function a
   method that adds up. Both are proved against one forward encoding (`Wire.Body`): field blocks in
   ascending order, lists in their own order, unknown bytes last. A decoder specification taken from the
   Protocol Buffers "Encoding" document turns that encoding back into the message.
2. **The two-mode validators**: one body serves `Validate` (stop at the first violation) and
   `ValidateAll` (collect them).
3. **The linear cache**, which holds one collection of resources, parks the watches of xDS clients and
   answers them when something changes. It is a class; each operation runs under the cache's lock and is
   one step.

## Layout

| file | content |
|---|---|
| `Wire.dfy` | varints, fixed-width integers, records, parsing, messages as field blocks followed by unknown bytes |
| `Buffer.dfy` | writing backwards into a buffer, one method per kind of field block |
| `Message.dfy` | machine integers, children and lists behind pointers, the decoder's view of one field |
| `AltName.dfy`, `CertsV2.dfy`, `CertsV3.dfy`, `Relay.dfy`, `Exactness.dfy` | the certificate trees of v2alpha and v3, the relay theorem, and when exactly the round trip holds |
| `Options.dfy`, `Listeners.dfy`, `InitDump.dfy`, `Scalars.dfy`, `Metrics.dfy`, `HashPolicy.dfy` | further messages |
| `ForeignChild.dfy`, `ClustersV2.dfy`, `ClustersV3.dfy`, `ClusterLaws.dfy` | the cluster trees, with children encoded by other packages |
| `Properties.dfy` | entry points, field order, concatenation, presence, signed varints, doubles, injectivity |
| `Validation.dfy`, `Validators.dfy` | the two validation modes |
| `CacheDiff.dfy`, `LinearCache.dfy` | what the cache owes a client, and the cache itself |

## How to read the contracts

- `Filled(now, orig, i, done)`: `now` is `orig` with the bytes from `i` on replaced by `done`; everything
  else is as before. `Reached` and `Counted` say the same of a message whose last field blocks are done.
- `EncodeX` is the forward encoding of message X, `DecodeX` its decoder specification, and `NormalX` the
  value that decoding yields: nil list elements become empty messages. `WellFormedX` asks that the unknown
  bytes of X and of everything below it parse and hold no field of the schema.
- `Quiet`: no open watch has anything pending. `Target`: the current version of everything a watch covers.

## What the source does not meet

- Negative zero is lost by `DoubleRange` and `Percent`, because the test for a non-zero value drops it.
  `DoubleRangeExactly` and `PercentExactly` give the exact condition.
- `HashPolicy` with a nil and with an empty SourceIp has the same bytes; `HashPolicyCollisions` shows that
  this is the only collision.
- `NumCacheWatches` drifts. The interface (pkg/cache/v3/cache.go:84-85) lets a caller invoke the
  cancellation function several times, and a stream invokes it before every new watch even when the old
  one was answered (pkg/server/sotw/v3/xds.go:122-124), but each call lowers the count.
  `Cache.Valid` states the exact error, `watchCount == |open| - staleCancels`, so the count is right if
  and only if no cancellation came late; `CountGoesNegative` is a concrete run.
- An update can be lost for a watch when another watch fails in the same notification. From a state in
  which every open watch is quiet, all are quiet again if and only if the notification succeeds, if and
  only if every watch the change concerns can be versioned (`QuietExactly`). A state-of-the-world watch
  always can; a delta watch can unless a resource it covers cannot be marshalled. A watch that could have
  been told can miss the update only through another one: a named watch through a named watch, a wildcard
  watch through any (`MissedThrough`, `WildcardsSpareNamed`). `UpdateGoesMissing` is a concrete run.

## Assumptions

- SubjectAlternateName and SimpleMetric have the same generated code in v2alpha and v3, so each is modelled
  once and used in both trees.
- `protohelpers.EncodeVarint` and `SizeOfVarint` are library code; `Buffer.dfy` has its own versions with
  the contract the call sites rely on, and the library meeting that contract is assumed.
- Children from other packages are opaque: a payload or an error, and a reported size. For validation they
  are a pair of verdicts. Timestamps, durations and Any values inside the certificate, listener and option
  messages are opaque payloads.
- Encoded messages are shorter than 2^63 bytes wherever decoding is claimed.
- The subscription of a parked watch does not change, as the interface asks
  (pkg/cache/v3/cache.go:42). A content hash is a given string; a resource that cannot be marshalled has
  none. A nil resource in a batch is one whose bytes are empty, which is what the proto library makes of it.
- Go leaves open in which order the entries of a map are visited. Loops over maps and sets pick any
  element; `Cache.visitedFirst` names the watch that happens to come up first, so that a run with a given
  order can be written down.

## Model

Every path is relative to the root of the repository. The `Put...List`, `Put...` and `Size...List`,
`Size...Field` members are the loops and blocks of the marshal and size functions named here.

| member | source | states |
|---|---|---|
| `Relay.CertificatesRelay` | envoy/admin/v2alpha/certs_vtproto.pb.go:22-206 | for every v3 tree whose unknown bytes parse and hold no v2alpha field: the v2alpha decoder accepts its bytes, and writing what it read gives the same bytes, through every nesting level |
| `Relay.CertificateRelay` | envoy/admin/v2alpha/certs_vtproto.pb.go:85-122 | the same for one Certificate, both of its lists of details included |
| `Relay.DetailsRelay` | envoy/admin/v2alpha/certs_vtproto.pb.go:142-206 | the same for CertificateDetails: a v2alpha reader moves the OCSP record into unknownFields and writes it back in place, whatever the OCSP record holds |
| `Relay.OcspIsUnknown` | envoy/admin/v3/certs_vtproto.pb.go:195-269 | the OCSP record together with the v3 unknown bytes parses and shares no field with the v2alpha schema |
| `Relay.CertificatesThroughRelay` | envoy/admin/v3/certs_vtproto.pb.go:22-269 | a v3 reader behind a v2alpha relay decodes the normal form of the tree the v3 writer had |
| `CertsV3.MarshalCertificates` | envoy/admin/v3/certs_vtproto.pb.go:40-65 | in any buffer with room before `end`, the bytes just before `end` become the forward encoding of the message (fields ascending, lists in order, unknown bytes last), every other byte keeps its value, and the count returned is the length of that encoding |
| `CertsV3.SizeCertificates` | envoy/admin/v3/certs_vtproto.pb.go:367-381 | the count equals the length of the same forward encoding, so it equals what the marshal function writes; a nil message counts 0 |
| `CertsV3.CertificatesLayout` | envoy/admin/v3/certs_vtproto.pb.go:40-65 | told from the fields alone: under each field number the bytes hold exactly the record of that field, none when it is unset or zero, list elements in order, and the unknown bytes |
| `CertsV3.CertificatesRoundTrip` | envoy/admin/v3/certs_vtproto.pb.go:40-65 | decoding the encoding gives back the message with nil list elements turned into empty messages at every level, unknown bytes included |
| `CertsV3.MarshalCertificate` | envoy/admin/v3/certs_vtproto.pb.go:85-122 | in any buffer with room before `end`, the bytes just before `end` become the forward encoding of the message (fields ascending, lists in order, unknown bytes last), every other byte keeps its value, and the count returned is the length of that encoding |
| `CertsV3.SizeCertificate` | envoy/admin/v3/certs_vtproto.pb.go:383-403 | the count equals the length of the same forward encoding, so it equals what the marshal function writes; a nil message counts 0 |
| `CertsV3.CertificateLayout` | envoy/admin/v3/certs_vtproto.pb.go:85-122 | told from the fields alone: under each field number the bytes hold exactly the record of that field, none when it is unset or zero, list elements in order, and the unknown bytes |
| `CertsV3.CertificateRoundTrip` | envoy/admin/v3/certs_vtproto.pb.go:85-122 | decoding the encoding gives back the message with nil list elements turned into empty messages, unknown bytes included |
| `CertsV3.MarshalCertificateDetails` | envoy/admin/v3/certs_vtproto.pb.go:195-269 | in any buffer with room before `end`, the bytes just before `end` become the forward encoding of the message (fields ascending, lists in order, unknown bytes last), every other byte keeps its value, and the count returned is the length of that encoding |
| `CertsV3.SizeCertificateDetails` | envoy/admin/v3/certs_vtproto.pb.go:423-460 | the count equals the length of the same forward encoding, so it equals what the marshal function writes; a nil message counts 0 |
| `CertsV3.CertificateDetailsLayout` | envoy/admin/v3/certs_vtproto.pb.go:195-269 | told from the fields alone: under each field number the bytes hold exactly the record of that field, none when it is unset or zero, list elements in order, and the unknown bytes |
| `CertsV3.CertificateDetailsRoundTrip` | envoy/admin/v3/certs_vtproto.pb.go:195-269 | decoding the encoding gives back the message with nil list elements turned into empty messages, unknown bytes included |
| `CertsV3.MarshalOcspDetails` | envoy/admin/v3/certs_vtproto.pb.go:142-175 | in any buffer with room before `end`, the bytes just before `end` become the forward encoding of the message (fields ascending, lists in order, unknown bytes last), every other byte keeps its value, and the count returned is the length of that encoding |
| `CertsV3.SizeOcspDetails` | envoy/admin/v3/certs_vtproto.pb.go:405-421 | the count equals the length of the same forward encoding, so it equals what the marshal function writes; a nil message counts 0 |
| `CertsV3.OcspDetailsLayout` | envoy/admin/v3/certs_vtproto.pb.go:142-175 | told from the fields alone: under each field number the bytes hold exactly the record of that field, none when it is unset or zero, list elements in order, and the unknown bytes |
| `CertsV3.OcspDetailsRoundTrip` | envoy/admin/v3/certs_vtproto.pb.go:142-175 | decoding the encoding gives back the message with nothing changed, unknown bytes included |
| `AltName.MarshalSubjectAlternateName` | envoy/admin/v3/certs_vtproto.pb.go:289-366 | in any buffer with room before `end`, the bytes just before `end` become the forward encoding of the message (fields ascending, lists in order, unknown bytes last), every other byte keeps its value, and the count returned is the length of that encoding |
| `AltName.SizeSubjectAlternateName` | envoy/admin/v3/certs_vtproto.pb.go:462-504 | the count equals the length of the same forward encoding, so it equals what the marshal function writes; a nil message counts 0 |
| `AltName.SubjectAlternateNameLayout` | envoy/admin/v3/certs_vtproto.pb.go:289-366 | field 1 holds a record exactly for a dns name, field 2 for a uri, field 3 for an ip address, even for an empty one, and nothing else is set |
| `AltName.SubjectAlternateNameRoundTrip` | envoy/admin/v3/certs_vtproto.pb.go:289-366 | decoding the encoding gives back the message with nothing changed, unknown bytes included |
| `CertsV2.MarshalCertificates` | envoy/admin/v2alpha/certs_vtproto.pb.go:40-65 | in any buffer with room before `end`, the bytes just before `end` become the forward encoding of the message (fields ascending, lists in order, unknown bytes last), every other byte keeps its value, and the count returned is the length of that encoding |
| `CertsV2.SizeCertificates` | envoy/admin/v2alpha/certs_vtproto.pb.go:304-318 | the count equals the length of the same forward encoding, so it equals what the marshal function writes; a nil message counts 0 |
| `CertsV2.CertificatesLayout` | envoy/admin/v2alpha/certs_vtproto.pb.go:40-65 | told from the fields alone: under each field number the bytes hold exactly the record of that field, none when it is unset or zero, list elements in order, and the unknown bytes |
| `CertsV2.CertificatesRoundTrip` | envoy/admin/v2alpha/certs_vtproto.pb.go:40-65 | decoding the encoding gives back the message with nil list elements turned into empty messages at every level, unknown bytes included |
| `CertsV2.MarshalCertificate` | envoy/admin/v2alpha/certs_vtproto.pb.go:85-122 | in any buffer with room before `end`, the bytes just before `end` become the forward encoding of the message (fields ascending, lists in order, unknown bytes last), every other byte keeps its value, and the count returned is the length of that encoding |
| `CertsV2.SizeCertificate` | envoy/admin/v2alpha/certs_vtproto.pb.go:320-340 | the count equals the length of the same forward encoding, so it equals what the marshal function writes; a nil message counts 0 |
| `CertsV2.CertificateLayout` | envoy/admin/v2alpha/certs_vtproto.pb.go:85-122 | told from the fields alone: under each field number the bytes hold exactly the record of that field, none when it is unset or zero, list elements in order, and the unknown bytes |
| `CertsV2.CertificateRoundTrip` | envoy/admin/v2alpha/certs_vtproto.pb.go:85-122 | decoding the encoding gives back the message with nil list elements turned into empty messages, unknown bytes included |
| `CertsV2.MarshalCertificateDetails` | envoy/admin/v2alpha/certs_vtproto.pb.go:142-206 | in any buffer with room before `end`, the bytes just before `end` become the forward encoding of the message (fields ascending, lists in order, unknown bytes last), every other byte keeps its value, and the count returned is the length of that encoding |
| `CertsV2.SizeCertificateDetails` | envoy/admin/v2alpha/certs_vtproto.pb.go:342-375 | the count equals the length of the same forward encoding, so it equals what the marshal function writes; a nil message counts 0 |
| `CertsV2.CertificateDetailsLayout` | envoy/admin/v2alpha/certs_vtproto.pb.go:142-206 | told from the fields alone: under each field number the bytes hold exactly the record of that field, none when it is unset or zero, list elements in order, and the unknown bytes |
| `CertsV2.CertificateDetailsRoundTrip` | envoy/admin/v2alpha/certs_vtproto.pb.go:142-206 | decoding the encoding gives back the message with nil list elements turned into empty messages, unknown bytes included |
| `Options.MarshalCommandLineOptions` | envoy/admin/v2alpha/server_info_vtproto.pb.go:122-365 | in any buffer with room before `end`, the bytes just before `end` become the forward encoding of the message (fields ascending, lists in order, unknown bytes last), every other byte keeps its value, and the count returned is the length of that encoding, for any subset of the 27 fields and both tag widths |
| `Options.SizeCommandLineOptions` | envoy/admin/v2alpha/server_info_vtproto.pb.go:400-505 | the count equals the length of the same forward encoding, so it equals what the marshal function writes; a nil message counts 0 |
| `Options.CommandLineOptionsLayout` | envoy/admin/v2alpha/server_info_vtproto.pb.go:122-365 | told from the fields alone: under each field number the bytes hold exactly the record of that field, none when it is unset or zero, list elements in order, and the unknown bytes |
| `Options.CommandLineOptionsRoundTrip` | envoy/admin/v2alpha/server_info_vtproto.pb.go:122-365 | decoding the encoding gives back the message with nothing changed, unknown bytes included |
| `Listeners.MarshalListenersConfigDump` | envoy/admin/v3/config_dump_shared_vtproto.pb.go:306-350 | in any buffer with room before `end`, the bytes just before `end` become the forward encoding of the message (fields ascending, lists in order, unknown bytes last), every other byte keeps its value, and the count returned is the length of that encoding |
| `Listeners.SizeListenersConfigDump` | envoy/admin/v3/config_dump_shared_vtproto.pb.go:1348-1372 | the count equals the length of the same forward encoding, so it equals what the marshal function writes; a nil message counts 0 |
| `Listeners.ListenersConfigDumpLayout` | envoy/admin/v3/config_dump_shared_vtproto.pb.go:306-350 | told from the fields alone: under each field number the bytes hold exactly the record of that field, none when it is unset or zero, list elements in order, and the unknown bytes |
| `Listeners.ListenersConfigDumpRoundTrip` | envoy/admin/v3/config_dump_shared_vtproto.pb.go:306-350 | decoding the encoding gives back the message with nil list elements turned into empty messages, unknown bytes included |
| `Listeners.MarshalDynamicListener` | envoy/admin/v3/config_dump_shared_vtproto.pb.go:221-286 | in any buffer with room before `end`, the bytes just before `end` become the forward encoding of the message (fields ascending, lists in order, unknown bytes last), every other byte keeps its value, and the count returned is the length of that encoding |
| `Listeners.SizeDynamicListener` | envoy/admin/v3/config_dump_shared_vtproto.pb.go:1315-1346 | the count equals the length of the same forward encoding, so it equals what the marshal function writes; a nil message counts 0 |
| `Listeners.DynamicListenerLayout` | envoy/admin/v3/config_dump_shared_vtproto.pb.go:221-286 | told from the fields alone: under each field number the bytes hold exactly the record of that field, none when it is unset or zero, list elements in order, and the unknown bytes |
| `Listeners.DynamicListenerRoundTrip` | envoy/admin/v3/config_dump_shared_vtproto.pb.go:221-286 | decoding the encoding gives back the message with active, warming, draining and error state each in its own place and absent where it was absent, unknown bytes included |
| `Listeners.MarshalDynamicListenerState` | envoy/admin/v3/config_dump_shared_vtproto.pb.go:161-201 | in any buffer with room before `end`, the bytes just before `end` become the forward encoding of the message (fields ascending, lists in order, unknown bytes last), every other byte keeps its value, and the count returned is the length of that encoding |
| `Listeners.SizeDynamicListenerState` | envoy/admin/v3/config_dump_shared_vtproto.pb.go:1293-1313 | the count equals the length of the same forward encoding, so it equals what the marshal function writes; a nil message counts 0 |
| `Listeners.DynamicListenerStateLayout` | envoy/admin/v3/config_dump_shared_vtproto.pb.go:161-201 | told from the fields alone: under each field number the bytes hold exactly the record of that field, none when it is unset or zero, list elements in order, and the unknown bytes |
| `Listeners.DynamicListenerStateRoundTrip` | envoy/admin/v3/config_dump_shared_vtproto.pb.go:161-201 | decoding the encoding gives back the message with nothing changed, unknown bytes included |
| `Listeners.MarshalStaticListener` | envoy/admin/v3/config_dump_shared_vtproto.pb.go:108-141 | in any buffer with room before `end`, the bytes just before `end` become the forward encoding of the message (fields ascending, lists in order, unknown bytes last), every other byte keeps its value, and the count returned is the length of that encoding |
| `Listeners.SizeStaticListener` | envoy/admin/v3/config_dump_shared_vtproto.pb.go:1275-1291 | the count equals the length of the same forward encoding, so it equals what the marshal function writes; a nil message counts 0 |
| `Listeners.StaticListenerLayout` | envoy/admin/v3/config_dump_shared_vtproto.pb.go:108-141 | told from the fields alone: under each field number the bytes hold exactly the record of that field, none when it is unset or zero, list elements in order, and the unknown bytes |
| `Listeners.StaticListenerRoundTrip` | envoy/admin/v3/config_dump_shared_vtproto.pb.go:108-141 | decoding the encoding gives back the message with nothing changed, unknown bytes included |
| `Listeners.MarshalUpdateFailureState` | envoy/admin/v3/config_dump_shared_vtproto.pb.go:41-88 | in any buffer with room before `end`, the bytes just before `end` become the forward encoding of the message (fields ascending, lists in order, unknown bytes last), every other byte keeps its value, and the count returned is the length of that encoding |
| `Listeners.SizeUpdateFailureState` | envoy/admin/v3/config_dump_shared_vtproto.pb.go:1249-1273 | the count equals the length of the same forward encoding, so it equals what the marshal function writes; a nil message counts 0 |
| `Listeners.UpdateFailureStateLayout` | envoy/admin/v3/config_dump_shared_vtproto.pb.go:41-88 | told from the fields alone: under each field number the bytes hold exactly the record of that field, none when it is unset or zero, list elements in order, and the unknown bytes |
| `Listeners.UpdateFailureStateRoundTrip` | envoy/admin/v3/config_dump_shared_vtproto.pb.go:41-88 | decoding the encoding gives back the message with nothing changed, unknown bytes included |
| `Scalars.MarshalInt64Range` | envoy/type/range_vtproto.pb.go:41-64 | in any buffer with room before `end`, the bytes just before `end` become the forward encoding of the message (fields ascending, lists in order, unknown bytes last), every other byte keeps its value, and the count returned is the length of that encoding |
| `Scalars.SizeInt64Range` | envoy/type/range_vtproto.pb.go:154-168 | the count equals the length of the same forward encoding, so it equals what the marshal function writes; a nil message counts 0 |
| `Scalars.Int64RangeLayout` | envoy/type/range_vtproto.pb.go:41-64 | told from the fields alone: under each field number the bytes hold exactly the record of that field, none when it is unset or zero, list elements in order, and the unknown bytes |
| `Scalars.Int64RangeRoundTrip` | envoy/type/range_vtproto.pb.go:41-64 | decoding the encoding gives back the message with nothing changed, unknown bytes included |
| `Scalars.MarshalInt32Range` | envoy/type/range_vtproto.pb.go:84-107 | in any buffer with room before `end`, the bytes just before `end` become the forward encoding of the message (fields ascending, lists in order, unknown bytes last), every other byte keeps its value, and the count returned is the length of that encoding |
| `Scalars.SizeInt32Range` | envoy/type/range_vtproto.pb.go:170-184 | the count equals the length of the same forward encoding, so it equals what the marshal function writes; a nil message counts 0 |
| `Scalars.Int32RangeLayout` | envoy/type/range_vtproto.pb.go:84-107 | told from the fields alone: under each field number the bytes hold exactly the record of that field, none when it is unset or zero, list elements in order, and the unknown bytes |
| `Scalars.Int32RangeRoundTrip` | envoy/type/range_vtproto.pb.go:84-107 | decoding the encoding gives back the message with nothing changed, unknown bytes included |
| `Scalars.MarshalDoubleRange` | envoy/type/range_vtproto.pb.go:127-152 | in any buffer with room before `end`, the bytes just before `end` become the forward encoding of the message (fields ascending, lists in order, unknown bytes last), every other byte keeps its value, and the count returned is the length of that encoding |
| `Scalars.SizeDoubleRange` | envoy/type/range_vtproto.pb.go:186-200 | the count equals the length of the same forward encoding, so it equals what the marshal function writes; a nil message counts 0 |
| `Scalars.DoubleRangeLayout` | envoy/type/range_vtproto.pb.go:127-152 | told from the fields alone: under each field number the bytes hold exactly the record of that field, none when it is unset or zero, list elements in order, and the unknown bytes |
| `Scalars.DoubleRangeRoundTrip` | envoy/type/range_vtproto.pb.go:127-152 | decoding the encoding gives back the message with negative zero turned into positive zero and every other bit pattern kept, unknown bytes included |
| `Scalars.MarshalPercent` | envoy/type/percent_vtproto.pb.go:41-60 | in any buffer with room before `end`, the bytes just before `end` become the forward encoding of the message (fields ascending, lists in order, unknown bytes last), every other byte keeps its value, and the count returned is the length of that encoding |
| `Scalars.SizePercent` | envoy/type/percent_vtproto.pb.go:105-116 | the count equals the length of the same forward encoding, so it equals what the marshal function writes; a nil message counts 0 |
| `Scalars.PercentLayout` | envoy/type/percent_vtproto.pb.go:41-60 | told from the fields alone: under each field number the bytes hold exactly the record of that field, none when it is unset or zero, list elements in order, and the unknown bytes |
| `Scalars.PercentRoundTrip` | envoy/type/percent_vtproto.pb.go:41-60 | decoding the encoding gives back the message with negative zero turned into positive zero and every other bit pattern kept, unknown bytes included |
| `Scalars.MarshalFractionalPercent` | envoy/type/percent_vtproto.pb.go:80-103 | in any buffer with room before `end`, the bytes just before `end` become the forward encoding of the message (fields ascending, lists in order, unknown bytes last), every other byte keeps its value, and the count returned is the length of that encoding |
| `Scalars.SizeFractionalPercent` | envoy/type/percent_vtproto.pb.go:118-132 | the count equals the length of the same forward encoding, so it equals what the marshal function writes; a nil message counts 0 |
| `Scalars.FractionalPercentLayout` | envoy/type/percent_vtproto.pb.go:80-103 | told from the fields alone: under each field number the bytes hold exactly the record of that field, none when it is unset or zero, list elements in order, and the unknown bytes |
| `Scalars.FractionalPercentRoundTrip` | envoy/type/percent_vtproto.pb.go:80-103 | decoding the encoding gives back the message with nothing changed, unknown bytes included |
| `InitDump.MarshalUnreadyTargetsDump` | envoy/admin/v3/init_dump_vtproto.pb.go:39-68 | in any buffer with room before `end`, the bytes just before `end` become the forward encoding of the message (fields ascending, lists in order, unknown bytes last), every other byte keeps its value, and the count returned is the length of that encoding |
| `InitDump.SizeUnreadyTargetsDump` | envoy/admin/v3/init_dump_vtproto.pb.go:115-133 | the count equals the length of the same forward encoding, so it equals what the marshal function writes; a nil message counts 0 |
| `InitDump.UnreadyTargetsDumpLayout` | envoy/admin/v3/init_dump_vtproto.pb.go:39-68 | told from the fields alone: under each field number the bytes hold exactly the record of that field, none when it is unset or zero, list elements in order, and the unknown bytes |
| `InitDump.UnreadyTargetsDumpRoundTrip` | envoy/admin/v3/init_dump_vtproto.pb.go:39-68 | decoding the encoding gives back the message with nothing changed, unknown bytes included |
| `InitDump.MarshalUnreadyTargetsDumps` | envoy/admin/v3/init_dump_vtproto.pb.go:88-113 | in any buffer with room before `end`, the bytes just before `end` become the forward encoding of the message (fields ascending, lists in order, unknown bytes last), every other byte keeps its value, and the count returned is the length of that encoding |
| `InitDump.SizeUnreadyTargetsDumps` | envoy/admin/v3/init_dump_vtproto.pb.go:135-149 | the count equals the length of the same forward encoding, so it equals what the marshal function writes; a nil message counts 0 |
| `InitDump.UnreadyTargetsDumpsLayout` | envoy/admin/v3/init_dump_vtproto.pb.go:88-113 | told from the fields alone: under each field number the bytes hold exactly the record of that field, none when it is unset or zero, list elements in order, and the unknown bytes |
| `InitDump.UnreadyTargetsDumpsRoundTrip` | envoy/admin/v3/init_dump_vtproto.pb.go:88-113 | decoding the encoding gives back the message with nil list elements turned into empty messages, unknown bytes included |
| `Metrics.MarshalSimpleMetric` | envoy/admin/v2alpha/metrics_vtproto.pb.go:39-69 | in any buffer with room before `end`, the bytes just before `end` become the forward encoding of the message (fields ascending, lists in order, unknown bytes last), every other byte keeps its value, and the count returned is the length of that encoding |
| `Metrics.SizeSimpleMetric` | envoy/admin/v2alpha/metrics_vtproto.pb.go:71-89 | the count equals the length of the same forward encoding, so it equals what the marshal function writes; a nil message counts 0 |
| `Metrics.SimpleMetricLayout` | envoy/admin/v2alpha/metrics_vtproto.pb.go:39-69 | told from the fields alone: under each field number the bytes hold exactly the record of that field, none when it is unset or zero, list elements in order, and the unknown bytes |
| `Metrics.SimpleMetricRoundTrip` | envoy/admin/v2alpha/metrics_vtproto.pb.go:39-69 | decoding the encoding gives back the message with nothing changed, unknown bytes included |
| `HashPolicy.MarshalHashPolicy` | envoy/type/hash_policy_vtproto.pb.go:72-116 | in any buffer with room before `end`, the bytes just before `end` become the forward encoding of the message (fields ascending, lists in order, unknown bytes last), every other byte keeps its value, and the count returned is the length of that encoding |
| `HashPolicy.SizeHashPolicy` | envoy/type/hash_policy_vtproto.pb.go:127-153 | the count equals the length of the same forward encoding, so it equals what the marshal function writes; a nil message counts 0 |
| `HashPolicy.HashPolicyLayout` | envoy/type/hash_policy_vtproto.pb.go:72-116 | field 1 holds no record when the policy is unset, an empty one for a nil SourceIp, the bytes of SourceIp otherwise |
| `HashPolicy.HashPolicyRoundTrip` | envoy/type/hash_policy_vtproto.pb.go:72-116 | with outer unknown bytes that parse, the policy comes back, a nil SourceIp in a set arm turned into an empty one, if and only if the bytes inside SourceIp parse |
| `ClustersV3.MarshalClusters` | envoy/admin/v3/clusters_vtproto.pb.go:40-65 | succeeds exactly when the encoder selected for every reachable foreign child succeeds; on success the bytes before `end` are the forward encoding and all else is unchanged; on failure it returns 0 and no byte from `end` on has changed |
| `ClustersV3.SizeClusters` | envoy/admin/v3/clusters_vtproto.pb.go:487-501 | for every message: the count is the length of the encoding in which each foreign child is as long as its selected size function reports; so it is the length of the real encoding whenever every reachable child reports truly |
| `ClustersV3.ClustersLayout` | envoy/admin/v3/clusters_vtproto.pb.go:40-65 | told from the fields alone: under each field number the bytes hold exactly the record of that field, for a foreign child what the encoder it is found to have returns, and the unknown bytes |
| `ClustersV3.ClustersRoundTrip` | envoy/admin/v3/clusters_vtproto.pb.go:40-65 | decoding the encoding gives back the message, each foreign child by its payload bytes, nil list elements as empty messages, unknown bytes included |
| `ClustersV3.MarshalClusterStatus` | envoy/admin/v3/clusters_vtproto.pb.go:85-207 | succeeds exactly when the encoder selected for every reachable foreign child succeeds; on success the bytes before `end` are the forward encoding and all else is unchanged; on failure it returns 0 and no byte from `end` on has changed |
| `ClustersV3.SizeClusterStatus` | envoy/admin/v3/clusters_vtproto.pb.go:503-562 | for every message: the count is the length of the encoding in which each foreign child is as long as its selected size function reports; so it is the length of the real encoding whenever every reachable child reports truly |
| `ClustersV3.ClusterStatusLayout` | envoy/admin/v3/clusters_vtproto.pb.go:85-207 | told from the fields alone: under each field number the bytes hold exactly the record of that field, for a foreign child what the encoder it is found to have returns, and the unknown bytes |
| `ClustersV3.ClusterStatusRoundTrip` | envoy/admin/v3/clusters_vtproto.pb.go:85-207 | decoding the encoding gives back the message, each foreign child by its payload bytes, nil list elements as empty messages, unknown bytes included |
| `ClustersV3.MarshalHostStatus` | envoy/admin/v3/clusters_vtproto.pb.go:227-367 | succeeds exactly when the encoder selected for every reachable foreign child succeeds; on success the bytes before `end` are the forward encoding and all else is unchanged; on failure it returns 0 and no byte from `end` on has changed |
| `ClustersV3.SizeHostStatus` | envoy/admin/v3/clusters_vtproto.pb.go:564-632 | for every message: the count is the length of the encoding in which each foreign child is as long as its selected size function reports; so it is the length of the real encoding whenever every reachable child reports truly |
| `ClustersV3.HostStatusLayout` | envoy/admin/v3/clusters_vtproto.pb.go:227-367 | told from the fields alone: under each field number the bytes hold exactly the record of that field, for a foreign child what the encoder it is found to have returns, and the unknown bytes |
| `ClustersV3.HostStatusRoundTrip` | envoy/admin/v3/clusters_vtproto.pb.go:227-367 | decoding the encoding gives back the message, each foreign child by its payload bytes, nil list elements as empty messages, unknown bytes included |
| `ClustersV3.MarshalHostHealthStatus` | envoy/admin/v3/clusters_vtproto.pb.go:387-485 | in any buffer with room before `end`, the bytes just before `end` become the forward encoding of the message (fields ascending, lists in order, unknown bytes last), every other byte keeps its value, and the count returned is the length of that encoding |
| `ClustersV3.SizeHostHealthStatus` | envoy/admin/v3/clusters_vtproto.pb.go:634-669 | the count equals the length of the same forward encoding, so it equals what the marshal function writes; a nil message counts 0 |
| `ClustersV3.HostHealthStatusLayout` | envoy/admin/v3/clusters_vtproto.pb.go:387-485 | told from the fields alone: under each field number the bytes hold exactly the record of that field, none when it is unset or zero, list elements in order, and the unknown bytes |
| `ClustersV3.HostHealthStatusRoundTrip` | envoy/admin/v3/clusters_vtproto.pb.go:387-485 | decoding the encoding gives back the message with nothing changed, unknown bytes included |
| `ClustersV2.MarshalClusters` | envoy/admin/v2alpha/clusters_vtproto.pb.go:40-65 | succeeds exactly when the encoder selected for every reachable foreign child succeeds; on success the bytes before `end` are the forward encoding and all else is unchanged; on failure it returns 0 and no byte from `end` on has changed |
| `ClustersV2.SizeClusters` | envoy/admin/v2alpha/clusters_vtproto.pb.go:421-435 | for every message: the count is the length of the encoding in which each foreign child is as long as its selected size function reports; so it is the length of the real encoding whenever every reachable child reports truly |
| `ClustersV2.ClustersLayout` | envoy/admin/v2alpha/clusters_vtproto.pb.go:40-65 | told from the fields alone: under each field number the bytes hold exactly the record of that field, for a foreign child what the encoder it is found to have returns, and the unknown bytes |
| `ClustersV2.ClustersRoundTrip` | envoy/admin/v2alpha/clusters_vtproto.pb.go:40-65 | decoding the encoding gives back the message, each foreign child by its payload bytes, nil list elements as empty messages, unknown bytes included |
| `ClustersV2.MarshalClusterStatus` | envoy/admin/v2alpha/clusters_vtproto.pb.go:85-171 | succeeds exactly when the encoder selected for every reachable foreign child succeeds; on success the bytes before `end` are the forward encoding and all else is unchanged; on failure it returns 0 and no byte from `end` on has changed |
| `ClustersV2.SizeClusterStatus` | envoy/admin/v2alpha/clusters_vtproto.pb.go:437-478 | for every message: the count is the length of the encoding in which each foreign child is as long as its selected size function reports; so it is the length of the real encoding whenever every reachable child reports truly |
| `ClustersV2.ClusterStatusLayout` | envoy/admin/v2alpha/clusters_vtproto.pb.go:85-171 | told from the fields alone: under each field number the bytes hold exactly the record of that field, for a foreign child what the encoder it is found to have returns, and the unknown bytes |
| `ClustersV2.ClusterStatusRoundTrip` | envoy/admin/v2alpha/clusters_vtproto.pb.go:85-171 | decoding the encoding gives back the message, each foreign child by its payload bytes, nil list elements as empty messages, unknown bytes included |
| `ClustersV2.MarshalHostStatus` | envoy/admin/v2alpha/clusters_vtproto.pb.go:191-331 | succeeds exactly when the encoder selected for every reachable foreign child succeeds; on success the bytes before `end` are the forward encoding and all else is unchanged; on failure it returns 0 and no byte from `end` on has changed |
| `ClustersV2.SizeHostStatus` | envoy/admin/v2alpha/clusters_vtproto.pb.go:480-548 | for every message: the count is the length of the encoding in which each foreign child is as long as its selected size function reports; so it is the length of the real encoding whenever every reachable child reports truly |
| `ClustersV2.HostStatusLayout` | envoy/admin/v2alpha/clusters_vtproto.pb.go:191-331 | told from the fields alone: under each field number the bytes hold exactly the record of that field, for a foreign child what the encoder it is found to have returns, and the unknown bytes |
| `ClustersV2.HostStatusRoundTrip` | envoy/admin/v2alpha/clusters_vtproto.pb.go:191-331 | decoding the encoding gives back the message, each foreign child by its payload bytes, nil list elements as empty messages, unknown bytes included |
| `ClustersV2.MarshalHostHealthStatus` | envoy/admin/v2alpha/clusters_vtproto.pb.go:351-419 | in any buffer with room before `end`, the bytes just before `end` become the forward encoding of the message (fields ascending, lists in order, unknown bytes last), every other byte keeps its value, and the count returned is the length of that encoding |
| `ClustersV2.SizeHostHealthStatus` | envoy/admin/v2alpha/clusters_vtproto.pb.go:550-576 | the count equals the length of the same forward encoding, so it equals what the marshal function writes; a nil message counts 0 |
| `ClustersV2.HostHealthStatusLayout` | envoy/admin/v2alpha/clusters_vtproto.pb.go:351-419 | told from the fields alone: under each field number the bytes hold exactly the record of that field, none when it is unset or zero, list elements in order, and the unknown bytes |
| `ClustersV2.HostHealthStatusRoundTrip` | envoy/admin/v2alpha/clusters_vtproto.pb.go:351-419 | decoding the encoding gives back the message with nothing changed, unknown bytes included |
| `ForeignChild.MarshalOwn` | envoy/admin/v3/clusters_vtproto.pb.go:243-247 | what the message relies on of a child that encodes itself in place: it ends just before `end`, returns its length and keeps all else, or fails, possibly leaving bytes in front of `end` but none behind it |
| `ForeignChild.PutOwn` | envoy/admin/v3/clusters_vtproto.pb.go:240-249 | the branch of the own encoder: payload in place, length and tag in front of it; an error leaves every byte from the end of the message on as it was |
| `ForeignChild.PutCopied` | envoy/admin/v3/clusters_vtproto.pb.go:249-257 | the branch of proto.Marshal: the fresh slice copied, length and tag in front of it; an error likewise |
| `ForeignChild.PutForeign` | envoy/admin/v3/clusters_vtproto.pb.go:239-260 | the run-time choice between the two: the same record is laid down in either branch, success is that of the chosen encoder, a nil child writes nothing |
| `ForeignChild.SizeForeign` | envoy/admin/v3/clusters_vtproto.pb.go:570-579 | own size function or proto.Size, chosen separately from the encoder: adds exactly the room of a child of the size reported |
| `ClusterLaws.LiftingKeepsBytes` | envoy/admin/v2alpha/clusters_vtproto.pb.go:40-419 | every v2alpha Clusters tree lifted to v3 with the added fields at their defaults encodes to the same bytes, if the conversion of foreign children keeps their payloads |
| `ClusterLaws.LiftClusterBytes` | envoy/admin/v3/clusters_vtproto.pb.go:85-207 | the same for one ClusterStatus: the three fields added in v3 cost nothing when unset |
| `ClusterLaws.LiftHostBytes` | envoy/admin/v3/clusters_vtproto.pb.go:227-367 | the same for one HostStatus |
| `ClusterLaws.LiftHealthBytes` | envoy/admin/v3/clusters_vtproto.pb.go:387-485 | the same for HostHealthStatus: the three added flags cost nothing when false |
| `ClusterLaws.LiftedReads` | envoy/admin/v3/clusters_vtproto.pb.go:40-485 | a v3 reader of the bytes of a v2alpha tree decodes the lifted tree |
| `ClusterLaws.ClustersInjective` | envoy/admin/v3/clusters_vtproto.pb.go:40-485 | two cluster trees have the same bytes if and only if they agree up to nil against empty list elements and up to how a foreign child came by its payload |
| `ClusterLaws.BranchesAgree` | envoy/admin/v3/clusters_vtproto.pb.go:227-367 | two runs of marshal and size on the same host and buffer, each foreign child in either branch: if each encoder is paired with its own size function, the count written is the count predicted in both runs; if moreover the two encoders of each child agree, the runs succeed together and leave the same buffer and counts |
| `ClusterLaws.PairedIsSound` | envoy/admin/v3/clusters_vtproto.pb.go:564-632 | pairing survives a change of branch, and under it a host that can be encoded reports its size truly |
| `ClusterLaws.BranchIndependence` | envoy/admin/v3/clusters_vtproto.pb.go:227-367 | children whose two encoders agree give the same bytes and the same success in whatever branch |
| `Properties.MarshalVTStrict` | envoy/admin/v3/certs_vtproto.pb.go:22-33 | the returned slice is exactly the encoding, with no gap and no leftover zero; nil for nil |
| `Properties.MarshalToVTStrict` | envoy/admin/v3/certs_vtproto.pb.go:35-38 | the first bytes of the buffer are the encoding and the rest keeps its value |
| `Properties.EntryPointsAgree` | envoy/admin/v3/certs_vtproto.pb.go:22-65 | the three entry points produce one byte string, for nil too: the returned slice, the front of one buffer and the tail of another, all other bytes untouched; in one and the same buffer the tail overwrites what the front had put there, and nothing else |
| `Properties.KnownFieldsOrdered` | envoy/admin/v2alpha/server_info_vtproto.pb.go:122-365 | for any message whose field blocks follow an ascending schema, the records come in strictly ascending field order, equal only inside one repeated field |
| `Properties.OptionsOrder` | envoy/admin/v2alpha/server_info_vtproto.pb.go:122-365 | for any subset of the 27 options the bytes parse into records in strictly ascending order, equal only for disabled_extensions, followed by the unknown records |
| `Properties.DumpsHomomorphism` | envoy/admin/v3/init_dump_vtproto.pb.go:88-113 | encoding a + b is the encoding of a followed by that of b, so sizes add up |
| `Properties.EmptyArmSurvives` | envoy/admin/v2alpha/certs_vtproto.pb.go:226-303 | a oneof arm set to the empty string costs exactly 2 bytes and is still that arm, set, after decoding |
| `HashPolicy.HashPolicyCollisions` | envoy/type/hash_policy_vtproto.pb.go:72-153 | two policies have the same bytes if and only if they are equal or differ exactly in a nil against an empty SourceIp |
| `Properties.SignedVarintLength` | envoy/type/range_vtproto.pb.go:154-184 | a negative number takes exactly 10 bytes; any other takes the least n with x < 128^n |
| `Properties.SignedVarintRoundTrip` | envoy/type/range_vtproto.pb.go:41-107 | reading back and truncating recovers every int64, and every int32 through the 64-bit sign extension, whatever bytes follow |
| `Properties.SignedVarintMinimal` | envoy/type/range_vtproto.pb.go:41-107 | no varint of the same number is shorter |
| `Properties.RangeSize` | envoy/type/range_vtproto.pb.go:154-168 | the size of a range in closed form: 0 for zero, 11 for a negative bound, 1 + minimal length otherwise |
| `Properties.DoubleRangeExactly` | envoy/type/range_vtproto.pb.go:127-152 | the round trip is the identity if and only if neither bound is negative zero |
| `Properties.PercentExactly` | envoy/type/percent_vtproto.pb.go:41-60 | the round trip is the identity if and only if the value is not negative zero |
| `Properties.ListenersInjective` | envoy/admin/v3/config_dump_shared_vtproto.pb.go:221-350 | two listener dumps have the same bytes if and only if they have the same normal form, so states that share a type are never confused |
| `Properties.CertificatesInjective` | envoy/admin/v3/certs_vtproto.pb.go:22-366 | two certificate trees have the same bytes if and only if they have the same normal form |
| `Exactness.UnknownComesBack` | envoy/admin/v3/certs_vtproto.pb.go:195-206 | for any message: its unknown bytes come back from the bytes written if and only if they parse and hold no field of the schema |
| `Exactness.CertificatesExactly` | envoy/admin/v3/certs_vtproto.pb.go:22-366 | the whole v3 tree comes back from its bytes if and only if that holds at every level of the tree: the round trip is claimed on exactly the trees for which it is true |
| `Exactness.DetailsExactly` | envoy/admin/v3/certs_vtproto.pb.go:195-269 | the same for CertificateDetails with its names and its OCSP record |
| `Buffer.EncodeVarint` | envoy/admin/v3/certs_vtproto.pb.go:59-61 | writes the varint ending just before the offset, returns its start, keeps all other bytes: what every call site relies on |
| `Buffer.SizeOfVarint` | envoy/admin/v3/certs_vtproto.pb.go:367-381 | the number of bytes of the varint |
| `Buffer.PutStrings` | envoy/admin/v3/init_dump_vtproto.pb.go:51-59 | the reverse loop over a repeated string lays the strings down in their original order |
| `Buffer.PutDouble` | envoy/type/range_vtproto.pb.go:139-150 | a non-zero double becomes its tag and 8 little-endian bytes, zero of either sign nothing |
| `Wire.VarintLength` | envoy/type/range_vtproto.pb.go:154-168 | k bytes are enough for v exactly when v < 128^k |
| `Wire.VarintGroups` | envoy/type/range_vtproto.pb.go:41-64 | byte i is the i-th group of seven bits from below, with the top bit set on all but the last byte |
| `Wire.LittleEndianDigits` | envoy/type/range_vtproto.pb.go:139-150 | byte i is the i-th byte of the number from below |
| `Wire.ReadVarintAfterWrite` | envoy/type/range_vtproto.pb.go:41-64 | reading a written varint gives the value and its length, whatever follows |
| `Wire.LittleEndianRoundTrip` | envoy/type/range_vtproto.pb.go:139-150 | fixed-width little-endian bytes read back as the number written |
| `Wire.ReadBody` | envoy/admin/v3/certs_vtproto.pb.go:195-269 | for any schema: parsing fields in ascending order followed by unknown bytes finds the payloads of each field, and exactly the unknown bytes left over |
| `Validators.ValidatePercent` | envoy/type/percent.pb.validate.go:53-76 | in both modes, an error exactly for a value outside [0, 100], and then the one that names the field value and the reason |
| `Validators.PercentComplete` | envoy/type/percent.pb.validate.go:53-76 | the same of the verdict specification |
| `Validators.PercentModes` | envoy/type/percent.pb.validate.go:53-76 | accepted in either mode exactly when absent or within [0, 100]; the fail-fast error is the first entry of the collected ones |
| `Validators.ValidateTokenBucket` | envoy/type/token_bucket.pb.validate.go:54-133 | in collect-all mode exactly the violations there are, each with its field, reason and cause, those of max_tokens, tokens_per_fill and fill_interval in this order; in fail-fast mode the first of them |
| `Validators.TokenBucketComplete` | envoy/type/token_bucket.pb.validate.go:54-133 | the same of the verdict specification |
| `Validators.TokenBucketModes` | envoy/type/token_bucket.pb.validate.go:54-133 | accepted exactly when max_tokens is positive, tokens_per_fill absent or positive, and fill_interval present, valid and positive; the modes agree |
| `Validators.CheckForeign` | envoy/admin/v2alpha/clusters.pb.validate.go:393-421 | in collect-all mode ValidateAll decides if the child has it; in all other cases Validate does if the child has that; a child with neither, or nil, is accepted |
| `Validators.ValidateHostStatus` | envoy/admin/v2alpha/clusters.pb.validate.go:387-584 | in collect-all mode one entry per failing child with that child's own error as cause and nothing else, in field order; in fail-fast mode the first of them; none when no child fails |
| `Validators.ValidateClusterStatus` | envoy/admin/v2alpha/clusters.pb.validate.go:191-299 | as for HostStatus, with the index of each host status in its entry |
| `Validators.ValidateClusters` | envoy/admin/v2alpha/clusters.pb.validate.go:58-104 | as for HostStatus: one entry ClusterStatuses[k] per failing cluster status, in index order |
| `Validators.HostModes` | envoy/admin/v2alpha/clusters.pb.validate.go:387-584 | Validate fails exactly when ValidateAll does, and its error is the leftmost path through the collected tree, given foreign children whose two validators do the same |
| `Validators.ClusterModes` | envoy/admin/v2alpha/clusters.pb.validate.go:191-299 | the same for ClusterStatus |
| `Validators.ClustersModes` | envoy/admin/v2alpha/clusters.pb.validate.go:58-584 | the same for the whole tree: field, reason and the entire chain of causes |
| `Validators.HostAccepted` | envoy/admin/v2alpha/clusters.pb.validate.go:387-584 | accepted exactly when both percentages are absent or in range and the validator that decides accepts each foreign child |
| `Validators.ClusterAccepted` | envoy/admin/v2alpha/clusters.pb.validate.go:191-299 | accepted exactly when both thresholds and every host are; nil elements count as valid |
| `Validators.ClustersAccepted` | envoy/admin/v2alpha/clusters.pb.validate.go:58-104 | accepted exactly when every percentage reachable at any level is absent or in [0, 100] and every foreign child is accepted |
| `Validators.ClustersSameAcceptance` | envoy/admin/v2alpha/clusters.pb.validate.go:58-104 | the two modes accept the same trees, given foreign children that agree between modes |
| `Validators.HostComplete` | envoy/admin/v2alpha/clusters.pb.validate.go:387-584 | the verdict specification reports exactly the failing children, told from the fields of the host, in strict field order, in both modes |
| `Validators.ClusterComplete` | envoy/admin/v2alpha/clusters.pb.validate.go:191-299 | the same for ClusterStatus, with the right index in strict order |
| `Validators.ClustersComplete` | envoy/admin/v2alpha/clusters.pb.validate.go:58-104 | the same at the top of the tree |
| `Validation.Embedded` | envoy/admin/v2alpha/clusters.pb.validate.go:66-94 | the block for one child: append its error, or stop with the verdict of the whole message |
| `Validation.EntriesAgree` | envoy/admin/v2alpha/clusters.pb.validate.go:191-299 | children that agree between modes give lists of the same length with matching fields, reasons and causes |
| `Validation.EntriesComplete` | envoy/admin/v2alpha/clusters.pb.validate.go:191-299 | a message that only embeds others reports exactly its failing children in their order, in both modes |
| `Validation.OutcomeReports` | envoy/type/token_bucket.pb.validate.go:54-133 | an ordered list of violations yields all of them in one mode and the first in the other |
| `CacheDiff.ComputeChanged` | pkg/cache/v3/linear.go:165-241 | lists each stale subscribed resource exactly once, whether matched by name, prefix or wildcard; fails exactly when a known one has no version |
| `CacheDiff.ComputeRemoved` | pkg/cache/v3/linear.go:190-256 | lists exactly the known resources that left the cache or the subscription, each once |
| `CacheDiff.AllSubscribed` | pkg/cache/v3/linear.go:291-324 | lists every cached resource of the subscription exactly once |
| `CacheDiff.ComputeResponse` | pkg/cache/v3/linear.go:262-350 | fails exactly when a covered resource has no version; otherwise answers exactly when something is pending or an answer is due anyway; the versions it records are exactly the current versions of everything subscribed; contents and removals as the protocol asks, stated on the fields of the watch |
| `CacheDiff.ResponseSpelledOut` | pkg/cache/v3/linear.go:262-350 | the same told from the fields of the watch: a delta watch fails exactly on a covered resource without a hash and others never; removals alone are answered for delta and full-state watches only; a full-state answer carries everything covered, any other what is news; only delta answers name removals |
| `CacheDiff.SubscribedExactly` | pkg/cache/v3/linear.go:147-157 | a subscription covers exactly the names it lists, the names that extend one of its prefixes and, as a wildcard, all |
| `CacheDiff.ReturnedIsTarget` | pkg/cache/v3/linear.go:327-347 | updating the known versions with any set that covers what is stale and dropping what is gone gives exactly the target |
| `CacheDiff.ClientReachesTarget` | pkg/cache/v3/linear.go:262-350 | from the names in the response alone: a full-state client that replaces what it holds, and a delta client that adds and drops, hold exactly the target versions; any other client holds the target and beyond it only what is gone |
| `CacheDiff.TargetIsQuiet` | pkg/cache/v3/linear.go:262-272 | a client that holds the target has nothing pending, so its next watch is parked |
| `CacheDiff.QuietMeansInSync` | pkg/cache/v3/linear.go:262-290 | for delta and full-state watches, nothing is pending if and only if the client holds the target |
| `CacheDiff.UntouchedStaysQuiet` | pkg/cache/v3/linear.go:352-363 | a change of resources outside a subscription cannot make it pending |
| `LinearCache.Cache.constructor` | pkg/cache/v3/linear.go:124-142 | an empty set of watches and the initial resources stamped with version 0 |
| `LinearCache.Cache.TrackWatch` | pkg/cache/v3/linear.go:580-620 | files the watch in exactly the tables its subscription asks for, under a fresh id, and keeps the books |
| `LinearCache.Cache.RemoveWatch` | pkg/cache/v3/linear.go:629-647 | takes a named watch out of every table entry, dropping empty entries, and lowers the count |
| `LinearCache.Cache.RemoveWildcardWatch` | pkg/cache/v3/linear.go:623-626 | takes a wildcard watch out and lowers the count, found or not |
| `LinearCache.Cache.Cancel` | pkg/cache/v3/linear.go:588-619 | the cancellation function: the watch is closed; a call that finds it already gone still lowers the count |
| `LinearCache.Cache.Triggered` | pkg/cache/v3/linear.go:352-363 | finds exactly the open named watches that subscribe to a modified name, by name or by prefix |
| `LinearCache.Cache.NotifyAll` | pkg/cache/v3/linear.go:352-394 | succeeds exactly when every concerned watch can be versioned; answers exactly the pending ones it reaches, each once, with its target, its resources, its removals and the version of the cache; all named watches are told unless one of them cannot be versioned, and before any wildcard one; all others stay open |
| `LinearCache.Cache.UpdateResource` | pkg/cache/v3/linear.go:397-408 | the new collection, the announcement, and: if every open watch was quiet, every open watch is quiet again if and only if the call succeeds; nil is refused and changes nothing |
| `LinearCache.Cache.DeleteResource` | pkg/cache/v3/linear.go:411-419 | as UpdateResource, for a removal |
| `LinearCache.Cache.UpdateResources` | pkg/cache/v3/linear.go:424-441 | as UpdateResource, for a batch; a name in both lists is deleted |
| `LinearCache.Cache.SetResources` | pkg/cache/v3/linear.go:446-475 | as UpdateResource; the collection becomes exactly the given one |
| `LinearCache.Cache.CreateWatch` | pkg/cache/v3/linear.go:495-541 | refused for another type or when a covered resource has no version, answered with its target, resources, removals and the version of the cache when due or pending, otherwise parked with nothing pending |
| `LinearCache.Cache.CreateDeltaWatch` | pkg/cache/v3/linear.go:543-569 | the same with the rule of the delta protocol for first requests |
| `LinearCache.Cache.Run` | pkg/cache/v3/linear.go:352-647 | over every sequence of updates, requests and cancellations: the tables hold exactly the open watches, no watch is answered twice, every watch ever parked is open, answered or cancelled, the count is off by exactly the stale cancellations; and while every change was announced (always, for resources that marshal) no open watch has missed an update and every open delta or full-state watch belongs to a client that holds exactly the current versions |
| `LinearCache.QuietExactly` | pkg/cache/v3/linear.go:352-394 | no lost update, exactly: after a change of a quiet cache every open watch is quiet if and only if the notification succeeded, if and only if every concerned watch can be versioned |
| `LinearCache.MissedThrough` | pkg/cache/v3/linear.go:352-394 | a watch that could be versioned and is not told misses its update through another concerned watch that cannot be, and a named watch only through a named one |
| `LinearCache.WildcardsSpareNamed` | pkg/cache/v3/linear.go:365-394 | if all concerned named watches can be versioned, none of them is left with anything pending, whatever happens to the wildcard ones |
| `LinearCache.FirstFailureSkipsAll` | pkg/cache/v3/linear.go:365-378 | if the named watch visited first cannot be versioned, nothing is sent and every watch stays open |
| `LinearCache.UpdateIsNews` | pkg/cache/v3/linear.go:397-408 | cache versions never repeat, so an update is always news to a state-of-the-world watch, and is news to a delta watch if and only if the content hash differs |
| `LinearCache.DecimalNotation` | pkg/cache/v3/linear.go:649-651 | the counter in a version is written in decimal digits that denote it, without leading zeros |
| `LinearCache.FailureSkipsWildcards` | pkg/cache/v3/linear.go:365-391 | one named watch that cannot be versioned keeps every wildcard watch from being told |
| `LinearCache.UpdateGoesMissing` | pkg/cache/v3/linear.go:365-391 | a concrete run in which a failed notification leaves an open watch with an update that it could have been told and whose resources all marshal |
| `LinearCache.CountGoesNegative` | pkg/cache/v3/linear.go:580-647 | a concrete run after which the number of watches is -1 |

## Left out

- The remaining `*_vtproto.pb.go` and `*.pb.validate.go` files, ServerInfo among them: they have the same shapes as the modelled ones and would only add easy members.
- Descriptor, reflection and getter code in `*.pb.go`: no algorithm.
- The inside of foreign children: in the cluster trees they come back as payload bytes.
- Groups (wire types 3 and 4): the decoder specification treats them as malformed, so unknown bytes that hold groups are outside the round-trip and relay claims.
- Typed-nil oneof wrappers: assumed not to occur, because SizeVT returns 0 for one while marshal dereferences it.
- Buffers shorter than the message: Go panics there; the marshal methods require room before `end`.
- Go int overflow of sizes, and UTF-8 checks on strings.
- NaN in Percent validation: values are ordinary reals.
- The text of errors: fields, owners and reasons are enumerated values.
- MarshalVTStrict and MarshalToVTStrict of messages other than the v3 Certificates: the same three lines around the modelled functions.
- LinearCache.Cache.TrackWatch: watch ids do not overflow 64 bits.
- Locking and channels: each cache operation is one atomic step, and a sent response is an entry of `sent`.
- The content of resources, lazy marshalling and its caching: only the version of a resource and whether it marshals matter here.
- The read-only counters NumWatches, NumPrefixWatches, NumWildcardWatches, NumResources and GetResources.
- The snapshot cache, the mux cache, the xDS streams and their subscription bookkeeping, the xDS matcher, and the example servers.
