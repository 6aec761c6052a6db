# Verified model of the sev-snp guest transports

`sev-snp` is the guest side of a request protocol with the AMD secure processor.
This project models its two kernel transports, the retrying handle above them, and
the codecs they share, and proves what a caller may rely on whatever the kernel, the
host and foreign processes do.

The kernel and the firmware are an unconstrained environment. Each environment is a
script, a function from the number of an operation to a reply, so a theorem about all
scripts is a theorem about all behaviours, adaptive ones included.

| file | models |
|---|---|
| `Bytes.dfy` | bytes, little- and big-endian readings, the total reads of `src/lib.rs` |
| `Decimal.dfy` | `to_string`, `trim`, `parse::<u64>`, the names of configfs entries |
| `Errors.dfy` | error values, the EXITINFO2 split, which errors are transient |
| `Certs.dfy` | the certificate table decoder and a canonical encoder for it |
| `Report.dfy` | the attestation report, its field map, signature numbers |
| `Tcb.dfy` | the product-dependent TCB codec and its order |
| `Request.dfy` | report requests and the check that a report answers one |
| `Key.dfy` | the key-request builder and its wire form |
| `Tsm.dfy` | the configfs-TSM interface as a state machine, and the invariant of one call |
| `TsmRuns.dfy` | every schedule: race safety, detection, no false alarms, ownership |
| `ConfigFs.dfy` | the configfs transport as a program, each execution a run of the machine |
| `Ioctl.dfy` | the `/dev/sev-guest` transport and its two-phase certificate handshake |
| `FirmwareHandle.dfy` | routing, bounded retry, the public operations, opening |

## What is assumed of the environment

The ioctl kernel may return any status and overwrite all three buffers arbitrarily;
nothing is assumed of it. Of the configfs kernel and of foreign processes only this is
assumed (`Tsm.dfy`): a new entry starts at generation 0; every accepted attribute write
adds one; reads of `outblob` and `auxblob` are produced from the attributes as they
stand; `generation` prints the current value or text that is no number; foreign processes
do not remove directories of this process. Every operation may fail at any point, a write
may be cut short, and any number of other calls and foreign steps may come between any
two operations. The model marks each blob with the attributes it was produced from and
counts the foreign writes to each entry; the program never looks at either.

## Where the code and its documentation part

- The entry-count check precedes the read of the terminator, so an accepted table has at
  most 15 entries although the constant is 16 and its comment calls that the most a table
  may declare (`Certs.CanonicalRoundTrip`).
- A comment says the all-zero GUID never reaches the naming function; with a nonzero
  offset or length it does, and is an ordinary unnamed entry. The round trip covers it.
- On the ioctl path no requested level and level zero are the same request
  (`Ioctl.ReportReqInjective`), and with none requested the returned level is unchecked
  (`Request.Answers`).

## Model

| member | source | states |
|---|---|---|
| `TsmRuns.RaceSafety` | src/backend/configfs.rs:120-151 | under every schedule of calls and foreign processes, a `run` that returned blobs had no foreign write on its entry when it read the generation, and both blobs were produced from exactly its own data and level; it is `Raced` exactly when it compared generations after a foreign write or could not read one; every other error is an I/O error |
| `TsmRuns.ForeignWriteIsDetected` | src/backend/configfs.rs:123-148 | a foreign write inserted anywhere between the creation of the entry and the generation read keeps `run` from ever returning a report, however the schedule continues |
| `TsmRuns.QuietRunsAreNeverRaced` | src/backend/configfs.rs:141-150 | if nobody else writes to the entry and the kernel prints its generation, `run` ends with blobs or an I/O error, never with `Raced`, whatever other calls do |
| `TsmRuns.QuietRunsCanSucceed` | src/backend/configfs.rs:120-151 | from every reachable state with the next name free, every request has a quiet schedule that ends with exactly the blobs the kernel produced and with the entry removed |
| `TsmRuns.AttributesIdentifyTheRequest` | src/backend/configfs.rs:127-132 | the attributes a blob was produced from belong to one request only, since decimal levels do not collide |
| `TsmRuns.EverySchedule` | src/backend/configfs.rs:119-226 | the invariant (calls, names, tickets, directory owners) holds in every reachable state |
| `Tsm.OperateKeeps` | src/backend/configfs.rs:120-151 | no single operation, with any kernel reaction, breaks the invariant tying a call's write count to its entry's generation and attributes |
| `Tsm.ForeignKeeps` | src/backend/configfs.rs:9-14 | nor does a foreign write to the entry |
| `TsmRuns.LiveEntriesAreDistinct` | src/backend/configfs.rs:208-217 | two calls that hold an entry never hold the same path, even after the counter has wrapped |
| `TsmRuns.RemovalsAreOwn` | src/backend/configfs.rs:220-226 | every removal targets a directory the same call created |
| `TsmRuns.EndedCallsOwnNothing` | src/backend/configfs.rs:220-226 | on every path, error paths included, a call that has ended owns no directory unless its removal was refused |
| `TsmRuns.CreationsCollideOnlyWithForeigners` | src/backend/configfs.rs:209-216 | below 2^64 requests no two calls try the same name, and a name found taken was taken by a foreign process |
| `Decimal.EntryNameInjective` | src/backend/configfs.rs:214 | different (process, counter) pairs never format to the same name |
| `Decimal.ParseOfPrinted` | src/backend/configfs.rs:141-144 | a printed generation is read back unchanged through trimming and parsing, and a value too wide for a u64 is refused |
| `Decimal.ParseIsExact` | src/backend/configfs.rs:141-144 | the texts parsed as a number are exactly its spellings (an optional plus sign, any zeros, the shortest form), for numbers that fit a u64 |
| `Decimal.TrimOfPadded` | src/backend/configfs.rs:98-102 | trimming removes all white space around a text and nothing else |
| `Decimal.SpacesAre` | src/backend/configfs.rs:101 | the twenty-five characters that count as white space |
| `ConfigFs.ConfigFs.Run` | src/backend/configfs.rs:120-151 | the program ends as a call of the machine that began after it was entered, dropped its entry, and settled on exactly the result returned; calls that had ended are untouched |
| `ConfigFs.ConfigFs.Transact` | src/backend/configfs.rs:123-150 | between creation and drop, whichever way it ends, the result returned is the one the machine settled on |
| `ConfigFs.ConfigFs.Collect` | src/backend/configfs.rs:135-150 | reading the blobs and comparing generations: an unreadable `auxblob` becomes empty and unparsable text counts as the largest u64, hence as a race |
| `ConfigFs.ConfigFs.WriteDataAttr` | src/backend/configfs.rs:190-200 | anything short of the whole value is a `WriteZero` error and the call gives up; otherwise the write is counted |
| `ConfigFs.ConfigFs.CreateEntry` | src/backend/configfs.rs:208-217 | a fresh call either holds a directory of its own name or has ended with the error returned |
| `ConfigFs.ReportsAreOwnAnswers` | src/backend/configfs.rs:159-174 | in every reachable state, a report handed out answers its request and its bytes were produced from the request's own attributes; the chain likewise; `Raced` means the entry was disturbed |
| `ConfigFs.BlobsAreDecided` | src/backend/configfs.rs:159-174 | blobs give a report exactly when they begin with one that answers the request, and a chain with it exactly when the auxiliary blob decodes; every error is the first one met |
| `ConfigFs.OpenAt` | src/backend/configfs.rs:78-107 | attaches exactly when the root is a directory and an entry in it names the SEV-SNP provider, and otherwise returns the matching error |
| `FirmwareHandle.Firmware.HandleGuarantee` | src/lib.rs:332-356 | on either transport, after any retries, success is a report that answers the request (64 bytes, requested level, version 2 to 16); `NoBackend` comes exactly from a handle without a route; `Raced` means three transient attempts, each a new call of its own, the last of which had its entry disturbed |
| `FirmwareHandle.Firmware.OneReportOneNonce` | src/backend/mod.rs:167-192 | two callers handed one and the same report, by whatever handles and transports, asked with the same data and never with two different levels |
| `FirmwareHandle.Firmware.HandleSpend` | src/lib.rs:156-167 | at most 3 guest requests per report and 6 per extended report, none on configfs, and the log only grows |
| `FirmwareHandle.RetryIsDetermined` | src/lib.rs:186-197 | the result is the first non-transient outcome of the first three, else the third; the number of attempts and the delays slept are fixed by the outcomes |
| `FirmwareHandle.RetryPersists` | src/lib.rs:176-197 | every attempt before the last failed with one of five named errors, and one of those comes back only after three attempts and delays of 20 and 80 ms |
| `FirmwareHandle.DeviceRunIsDetermined` | src/lib.rs:186-197 | on the device the kernel's replies alone fix the result and the requests spent |
| `FirmwareHandle.Firmware.Retrying` | src/lib.rs:186-197 | the loop makes exactly such a run of attempts, each a call of its own |
| `FirmwareHandle.Firmware.ReportWith` | src/lib.rs:332-334 | the guarantee, the spend bound and the retry run of a whole `report_with`; on either transport the result, error or not, is the outcome of the last attempt; only the five transient errors, listed by name, are asked again for |
| `FirmwareHandle.Firmware.ExtendedReportWith` | src/lib.rs:356-358 | the same of a whole `extended_report_with`; the report and the chain returned are those of the last attempt: on configfs the two blobs of its call, on the device its response and certificate buffers |
| `FirmwareHandle.Firmware.HandleDeliversTheChain` | src/lib.rs:356-358 | if the kernel demands a buffer and fills it with a canonical table, the caller of the handle gets that report and exactly those certificates from one attempt and two requests |
| `FirmwareHandle.Firmware.SettledIsMadeOf` | src/lib.rs:356-358 | which bytes an extended report is made of, on either transport |
| `FirmwareHandle.Firmware.DeriveKey` | src/lib.rs:370-376 | at most one guest request, carrying the wire form; none without the device or for a level above 3 |
| `FirmwareHandle.Open` | src/lib.rs:225-253 | a call of its own reads the provider if the root is a directory; succeeds exactly when that names SEV-SNP or the device opened, prefers configfs, the handle holds the very kernel and device given and is always routed; otherwise `NoBackend` |
| `FirmwareHandle.OpenWith` | src/lib.rs:268-285 | opens exactly the transport named, over the kernel or device given; configfs is refused as absent, as unreadable, or as another provider, and the device with its own error |
| `FirmwareHandle.SpendBound` | src/backend/ioctl.rs:9-19 | attempts that cost between one and `most` requests each spend within those multiples |
| `Errors.ExitInfo2Meaning` | src/error.rs:390-399 | which EXITINFO2 ranges mean success, a longer buffer, a retry, or a firmware status: the hypervisor half decides whenever nonzero |
| `Errors.TransientIsWorthAsking` | src/lib.rs:175-183 | exactly five errors are transient: a race, a busy hypervisor, and the I/O kinds busy, would-block and interrupted |
| `Ioctl.SevGuest.GetExtendedReport` | src/backend/ioctl.rs:275-304 | the result as a function of the kernel's replies, and the exact requests issued: one, or a second naming the demanded size |
| `Ioctl.SevGuest.GetReport` | src/backend/ioctl.rs:266-273 | exactly one request; success exactly when the accepted response carries a report for the request under status zero |
| `Ioctl.SevGuest.Issue` | src/backend/ioctl.rs:159-190 | one log entry per request; the result by ranges of EXITINFO2, then by errno; buffers hold what the kernel left in them |
| `Ioctl.IssueIsDecided` | src/backend/ioctl.rs:176-190 | EXITINFO2 decides whenever it is not zero, by numeric range, whatever `ioctl` returned; only else does the errno count |
| `Ioctl.ReportIsDecided` | src/backend/ioctl.rs:216-273 | a request succeeds exactly when it was accepted and its response, with status zero, carries a report for it; a failed status is the firmware's error and a refusal is passed on |
| `Ioctl.SevGuest.DeriveKey` | src/backend/ioctl.rs:306-323 | a level above 3 never reaches the kernel; otherwise one request with the wire form |
| `Ioctl.HandshakeAgreement` | src/backend/ioctl.rs:281-303 | whenever a second request is issued its first 96 bytes repeat the first one's, its length field is the allocated buffer of one to four pages, and decoding that buffer cannot fail for its own size |
| `Ioctl.AsksAgainExactly` | src/backend/ioctl.rs:234-246 | a second request follows exactly a demand for a longer buffer of one to four pages, whatever `rc` and errno say; any other size is refused |
| `Ioctl.ExtendedExactly` | src/backend/ioctl.rs:275-304 | an extended request succeeds exactly when its last request was accepted, the response carries a report for it and the chain decodes, and these are returned |
| `Ioctl.ExtendedErrors` | src/backend/ioctl.rs:275-304 | otherwise the first refusal met is passed on, an implausible size is an argument error, and the report is judged before the chain |
| `Ioctl.ExtendedAnswers` | src/backend/ioctl.rs:283-303 | success answers the request; if the first request succeeded the table is empty |
| `Ioctl.HandshakeDeliversTheChain` | src/backend/ioctl.rs:275-304 | if the kernel demands a buffer and fills it with a canonical table of at most fifteen certificates, the caller gets exactly those and the report |
| `Ioctl.PageRoundingIsInert` | src/backend/ioctl.rs:287-302 | a chain decodes from the page-rounded buffer as if it had arrived alone |
| `Ioctl.ResponsesAreNeverShort` | src/backend/ioctl.rs:216-231 | the fixed response buffer is refused only for status, version or mismatch, never as short |
| `Ioctl.ReportReqInjective` | src/backend/ioctl.rs:193-199 | two requests have one wire image exactly when they agree on data and on the level with none read as zero |
| `Ioctl.ExtReportReqLayout` | src/backend/ioctl.rs:203-213 | nothing is clipped: report part, address, length, four zero bytes |
| `Ioctl.CodesAre` | src/backend/ioctl.rs:46-56 | the three request codes as numbers |
| `Ioctl.ShortBuffersAreRefused` | src/backend/ioctl.rs:216-246 | the errors for buffers too short to hold a status, a payload or a size field |
| `Ioctl.DerivedKeyIsThePayload` | src/backend/ioctl.rs:313-322 | the key is bytes 32 to 64 of a response with status zero, and the truncation error cannot occur |
| `Ioctl.Fill` | src/backend/ioctl.rs:253-259 | the in-place copy produces the zero-padded buffer |
| `Request.CheckedExactly` | src/backend/mod.rs:180-192 | a report comes out of received bytes exactly when they begin with one that answers the request |
| `Request.CheckedIsDecided` | src/backend/mod.rs:180-192 | which error it is otherwise, in terms of the received bytes: length, version, data, then level |
| `Certs.ParseTable` | src/certs.rs:157-217 | the cursor loop computes the slot-by-slot specification for every blob |
| `Certs.DecodeIsSettledByTheStop` | src/certs.rs:172-216 | which error comes first, or which certificates come out, is fixed by the first position that yields none |
| `Certs.AcceptedExactly` | src/certs.rs:150-196 | a blob is accepted exactly when it is empty, or has at most 0x4000 bytes and a terminator among its first sixteen slots behind readable entries only; a longer one is refused for its size |
| `Certs.EntriesAreExactSlices` | src/certs.rs:187-211 | each certificate carries exactly the GUID and the body bytes its slot names |
| `Certs.CanonicalRoundTrip` | src/certs.rs:169-216 | any list of at most fifteen entries whose canonical blob fits comes back exactly; a longer one is refused for its count |
| `Certs.ReencodingIsStable` | src/certs.rs:157-217 | encoding a decoded table canonically and decoding it again changes nothing, when it fits |
| `Certs.PaddingIsInert` | src/certs.rs:157-217 | bytes after an accepted nonempty blob cannot change the chain |
| `Certs.DecodedFormIsBounded` | src/certs.rs:25-32 | at most fifteen entries and fifteen times the blob in body bytes, however the offsets overlap |
| `Certs.WholeBuffersAreNeverShort` | src/certs.rs:161-191 | a buffer of at least sixteen slots within the limit is refused only for what its entries say |
| `Certs.KindNamesItsGuid` | src/certs.rs:90-99 | a GUID gets a name exactly when it is, byte for byte, the one defined for that name |
| `Certs.GuidsAreInOrder` | src/certs.rs:62-83 | the sixteen bytes a table holds for each kind |
| `Certs.LookupIsExact` | src/certs.rs:227-229 | in every accepted table, looking a named kind up yields the first entry carrying that kind's GUID, and nothing exactly when no entry carries it |
| `Certs.LookupInCanonical` | src/certs.rs:227-229 | in a canonical encoding the certificate found has the GUID and the body of the first such item |
| `Key.SameWireExactly` | src/key.rs:145-247 | two runs of builder calls give the same wire bytes exactly when they bind the same facts and end with the same arguments |
| `Key.MaskRecordsBinds` | src/key.rs:118-247 | bit i of the mask is set exactly when a call bound it |
| `Key.MaskIsSevenBits` | src/key.rs:180-247 | no bit above 6 is ever set |
| `Key.SlotsHoldLastArguments` | src/key.rs:151-247 | each value slot holds the last argument given for it, or zero |
| `Key.WireRoundTrip` | src/key.rs:273-293 | every field can be read back from the 40 bytes and bytes 4 to 8 are zero |
| `Key.WireImages` | src/key.rs:273-293 | exactly the strings with a known root key and a zero reserved word are requests |
| `Key.OldKernelsSeeAllButTheVector` | src/key.rs:268-272 | the first 32 bytes agree exactly when the requests differ at most in the mitigation vector |
| `Key.ToWire` | src/key.rs:288-292 | the copy loop produces the chained fields |
| `Tcb.DecodeAfterEncode` | src/tcb.rs:191-269 | the round trip holds exactly when the parts carry an FMC number just where the layout has a slot |
| `Tcb.NormalisationLowers` | src/tcb.rs:191-269 | re-encoding never raises a raw version, changes it exactly when a reserved byte was set, and is idempotent |
| `Tcb.EncodeIsMonotone` | src/tcb.rs:239-269 | raising any component raises the version, strictly for representable parts |
| `Tcb.OrderIsLexicographic` | src/tcb.rs:173-269 | on either layout comparing raw versions compares microcode, then SNP firmware, PSP operating system, bootloader and FMC, in both directions |
| `Tcb.OlderIsOlder` | examples/derive_key.rs:129-140 | the stepped-down version is never newer, and strictly older exactly when there was microcode to step or a reserved byte to drop; for an unknown product, exactly when the word was not zero |
| `Tcb.LayoutFollowsFamily` | src/tcb.rs:105-131 | only the family decides the layout |
| `Tcb.ProductsAreNamed` | src/tcb.rs:105-113 | which family and models each product name stands for; any other part keeps its numbers |
| `Report.ParseAcceptsExactlyReports` | src/report.rs:60-73 | exactly the buffers beginning with a report of a supported version are accepted, and its bytes are kept |
| `Report.ReportIsSignedPartThenSignature` | src/report.rs:81-91 | no field read falls back to zeros; signed bytes then signature are the whole report |
| `Report.FieldMapIsSound` | src/report.rs:96-304 | every field lies inside the report, the signature fields alone outside the signed part, and no two overlap |
| `Report.AssembledReadsBack` | src/report.rs:77-340 | a report assembled from field widths and reserved gaps alone reads back every field, so each offset is the sum of what precedes it |
| `Report.AssembledParses` | src/report.rs:60-73 | parsing an assembled report returns it exactly when its version is supported, whatever bytes follow |
| `Report.AssembledAccessors` | src/report.rs:77-340 | every accessor of an assembled report answers what was written: numbers, structures byte by byte, blocks untouched, and nothing exactly when the version predates the field |
| `Report.FirmwareOrderIsNumeric` | src/report.rs:242-260 | the derived order of decoded firmware versions is the order of the numbers in the report |
| `Report.SignedBytesDetermineTheView` | src/report.rs:208-340 | equal signed bytes mean equal answers from every accessor outside the signature, version-gated ones and the TCB split included |
| `Report.ReadIsTheFieldsBytes` | src/report.rs:316-339 | an accessor distinguishes two reports exactly when the field's bytes differ and the version shows them |
| `Report.SplitFollowsCpuidFamily` | src/report.rs:312-314 | the TCB split exists from version 3 and has an FMC number exactly from family 1Ah on |
| `Report.SplitReadsTheReport` | src/report.rs:312-314 | the byte of the report each part of the TCB split is read from, on either layout |
| `Report.ToBe48` | src/report.rs:448-452 | the in-place reversal of the low 48 bytes |
| `Report.SignatureNumberIsPreserved` | src/report.rs:404-431 | the big-endian number equals the low 48 little-endian bytes, and the whole component exactly when its top 24 bytes are zero |
| `Report.SignatureNumberIsInjective` | src/report.rs:443-452 | components with equal padding convert to distinct numbers unless equal |
| `Report.EcdsaComponents` | src/report.rs:289-303 | a signature is read as ECDSA exactly when the algorithm word is 1; r and s are its first and second 72 bytes, and their big-endian numbers those of the low 48 |
| `Bytes.U32AtReadsBack` | src/lib.rs:417-424 | a bounded read returns what was written there in little-endian form |
| `Bytes.BytesAtIsExact` | src/lib.rs:405-424 | a bounded read yields the bytes it names, and nothing exactly when they are not all inside |

## Left out

- The file system, `libc::ioctl`, file descriptors, buffer addresses and errno texts: environment operations with any outcome; the buffer address is an arbitrary number, and the errors for addresses wider than a u64 cannot arise.
- `GuestBackend` as an interface: the handle holds an optional object of each transport class and selects by its transport field.
- The closure passed to `retrying`: `FirmwareHandle.Firmware.Retrying` loops over the attempts of one of the two report operations.
- Several callers on one device: `SevGuest` is one caller's view, its script being the replies to that caller's own requests and its log that caller's own share of the sequence numbers. The source type keeps nothing that changes between requests, so other callers reach this one only through the kernel's replies, which are arbitrary; the order in which the requests of several callers reach the firmware is not modelled.
- Real time: delays are a log. Memory wiping on drop is outside functional behaviour, so a derived key is a byte string.
- Cryptographic verification: not done by the crate.
- `src/detect.rs`, `src/policy.rs`, CPUID packing of family/model/stepping, and KDS names: settled by reading one line each.
- Names of firmware statuses: a status is kept by its code; only zero against nonzero matters to the control flow.
- Parsing of `privlevel_floor` and the `with_msg_version` override; formatting, examples and cargo features, both transports being present.
- Foreign removal and re-creation of a live entry: excluded by assumption, since the generation counter cannot show it.
