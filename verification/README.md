# Verified model of the enclave signer

A Dafny model of the state-heavy parts of the UTEXO enclave signer and its parent adapter, with proofs about
whole runs and all inputs. `dafny verify dfyconfig.toml` checks it.

- **BER to DER** (`Ber`, `BerReader`, `BerConverter`, `BerStreaming`, `BerStrings`). The KMS recipient envelope
  arrives as streaming BER (section 8.1.3.6 of X.690) and is rewritten as DER. A grammar of values and a printer say
  what the format is. The parser is proved to accept exactly that grammar, and the conversion to be canonical.
  `BerStrings` says in octets what comes out for each value.
- **Signed-reply cache** (`ReplyCache`, `ReplyLifetime`, `SignedReplyStore`, `SingleFlight`). The store under its
  mutex, how long it keeps a reply, and the single-flight protocol around it as a state machine over any number of
  clients.
- **Seed custody** (`SeedCustody`). One bootstrap or recovery call against any world, and any number of attempts
  racing on one create-if-absent object.
- **Attested policy** (`Policy`, `PolicyCodec`, `PolicyWire`, `LaunchCheck`, `PolicyInputs`, `ParentPolicy`,
  `EnclavePolicy`, `PolicyAgreement`, `Commitment`). The wire codec, the field-by-field launch check, the two
  builders of the policy, and the commitment preimage. `PolicyLayout` and `PolicyErrors` give the bytes and errors of
  the codec in numbers, `LaunchFields` the names in a refusal, `Utf8Text` and `Parsers` what the text formats accept,
  and `PrintedPolicy` the way from a printed policy to the attested one.
- **Wire shape** (`WireShape`, `WireWriter`). The walk that counts field occurrences before a protobuf decode, and a
  writer of requests by field number that it is measured against.
- **Rate limits** (`HeaderRate`, `TokenBucket`, `FixedWindow`). A sliding window, a token bucket, a fixed window.
- **Certificate path** (`CertPath`). The running path-length budget (section 6.1.4 of RFC 5280).

`Bytes` and `Strings` hold shared vocabulary. Code that updates things in place is modelled by methods and classes,
each proved against a specification; the theorems are about the specification.

Hashes, signatures, KMS, DNS-name and certificate parsing are function-valued parameters, so each result holds
whatever they answer. Clocks are values or an object whose time never goes back. Deadlines are checks that may fail.

## Exact conditions

Some properties hold of the code only under a condition. Each is proved with that condition, as an
if-and-only-if.

- The output of `ber_to_der` can be longer than its input: from 65,540 bytes on, an indefinite length can cost less
  than the definite one. Up to 65,539 bytes it never grows (`BerConverter.NeverGrowsExactlyTo`). It converts to
  itself exactly when its content is below 2^32 bytes (`BerConverter.IdempotentExactlyTo`). The caller's cap is
  8 KiB.
- The store's comment has finished entries oldest first, but a completed reply is stamped before the lock is taken,
  so `order` need not be in clock order, and a reply past its age limit can then be served
  (`SingleFlight.StaleReplyServedInARun`). After one eviction all are fresh exactly when every expired entry comes
  first (`ReplyCache.FreshExactlyIfExpiredFirst`), and always exactly when the order is the clock order
  (`ReplyCache.FreshExactlyInClockOrder`).
- Lengths are cast to 32 bits. So the policy codec inverts itself exactly for policies whose lengths fit
  (`PolicyCodec.RoundTrip`) and tells them apart exactly as long as lengths stay below 2^32
  (`PolicyCodec.InjectiveExactlyTo`). The launch check passes exactly for those
  (`LaunchCheck.ComparePassesExactly`).
- The token bucket reads the clock before the lock. Out of order it can admit more than 8 + 4t in `t` seconds
  (`TokenBucket.OutOfOrderAdmitsMore`). Over all calls in an interval whose times climb by at most `c`, the bound
  holds exactly when the whole tokens in 4c are at most 4t, or `t` is zero (`TokenBucket.BoundHoldsExactlyTo`). In
  clock order the climb is at most `t`, so it holds (`TokenBucket.IntervalAdmitsAtMost`).
- The streaming helper is undone exactly when the value fits the depth limit with nothing to join, no constructed
  value has a `00 00` child, and every string it splits has room for one more level
  (`BerStreaming.StreamingRoundTrip`).

## Model

| member | source | states |
|---|---|---|
| Ber.Unambiguous | enclave/src/kms/ber.rs:51-134 | Two legal BER values printed at the front of the same bytes are the same value, so a parse does not depend on what follows it |
| BerReader.ReadTag | enclave/src/kms/ber.rs:55-70 | A tag length is returned exactly when the input starts with a legal tag |
| BerReader.ReadLength | enclave/src/kms/ber.rs:73-95 | The form and length found are the only legal ones at the front of the bytes; a refusal means there is none |
| BerReader.Parse | enclave/src/kms/ber.rs:51-134 | Success reads a well-formed value of depth at most 16, the exact bytes used and its normalised tree; failure means no well-formed value starts here |
| BerReader.ParseDefiniteBody | enclave/src/kms/ber.rs:98-115 | The same for a value of definite length, primitive or constructed |
| BerReader.ParseDefiniteChildren | enclave/src/kms/ber.rs:103-115 | The constructed case: the children fill the announced length, or there is no value here |
| BerReader.ParseIndefiniteBody | enclave/src/kms/ber.rs:116-130 | The same for a value of indefinite length, which must be constructed |
| BerReader.ParseDefinite | enclave/src/kms/ber.rs:108-114 | The children fill the content exactly, or no list of well-formed values does |
| BerReader.ParseIndefinite | enclave/src/kms/ber.rs:118-129 | The children run up to the first `00 00` that no value claims, or no such list exists |
| BerReader.Joined | enclave/src/kms/ber.rs:141-166 | Chunks become one primitive under the cleared tag exactly for an eligible tag and a non-empty list of primitive OCTET STRINGs; `BerStrings` says in octets what that makes of every value |
| BerConverter.EncodeLength | enclave/src/kms/ber.rs:187-196 | The bytes appended are the shortest legal length field |
| BerConverter.Encode | enclave/src/kms/ber.rs:168-184 | The bytes appended are the canonical print of the tree |
| BerConverter.ConvertToDer | enclave/src/kms/ber.rs:40-48 | The conversion succeeds exactly on one complete well-formed value and then gives the canonical print of its normalised tree, whose octets `BerStrings` gives for every value |
| BerConverter.NormIsNormal | enclave/src/kms/ber.rs:141-166 | What the parser builds has nothing left to join and fits the depth limit |
| BerConverter.DerReadsBack | enclave/src/kms/ber.rs:168-196 | The canonical print of such a tree is well formed and reads back as that tree |
| BerConverter.ContentsKept | enclave/src/kms/ber.rs:141-184 | The primitive bytes, in order, are the same before and after |
| BerConverter.ConversionIsCanonical | enclave/src/kms/ber.rs:40-196 | The output always carries the same primitive bytes; while its content is below 2^32 bytes it is a value of the same tree and converts to itself |
| BerConverter.IdempotentExactlyTo | enclave/src/kms/ber.rs:40-48 | The output converts to itself exactly when its content is below 2^32 bytes |
| BerConverter.ConversionNeverGrows | enclave/src/kms/recipient.rs:40-49 | Up to 65,539 bytes, so for every envelope within the cap, the output is no longer than the input |
| BerConverter.NextSizeCanGrow | enclave/src/kms/ber.rs:187-196 | At 65,540 bytes there is an input whose output is longer |
| BerConverter.NeverGrowsExactlyTo | enclave/src/kms/recipient.rs:40-49 | No input up to a cap grows exactly when the cap is at most 65,539 |
| BerConverter.SameOutputSameTree | enclave/src/kms/ber.rs:40-48 | Values of one tree convert to the same bytes, and where the content is below 2^32 bytes no others do |
| BerStrings.StringsAreJoined | enclave/src/kms/ber.rs:141-166 | A constructed value of tag 24 or A0 to BF with one or more children that are OCTET STRINGs, whole or in chunks again, converts to the tag without its constructed bit, the shortest length, and the octets in order |
| BerStrings.PrimitivesAreKept | enclave/src/kms/ber.rs:98-102 | A primitive value converts to its tag, the shortest length and its content |
| BerStrings.OthersKeepTheirChildren | enclave/src/kms/ber.rs:141-184 | Any other constructed value converts to its tag, the shortest length, and the conversions of its children, one for one and in order |
| BerStrings.OutputIsTidy | enclave/src/kms/ber.rs:141-166 | No output holds a constructed value under one of those tags whose children, one or more, are all primitive OCTET STRINGs |
| BerStrings.OneChunkIsJoined | enclave/src/kms/ber.rs:153-164 | `A0 80 04 02 AA BB 00 00` converts to `80 02 AA BB`: one chunk is enough |
| BerStrings.NestingLimit | enclave/src/kms/ber.rs:14-15 | Values nested in each other are accepted up to seventeen levels and no more |
| BerStrings.LengthLimit | enclave/src/kms/ber.rs:73-95 | A long-form length is accepted exactly with one to four octets and no leading zero, even where fewer would do |
| BerStrings.TagLimit | enclave/src/kms/ber.rs:55-70 | A long-form tag is accepted exactly up to four octets |
| BerStrings.StreamedString | enclave/src/kms/ber.rs:245-256 | The helper sends a string of two bytes or more as two halves, each with the shortest length, in an indefinite length under the constructed tag |
| BerStrings.StreamedOthers | enclave/src/kms/ber.rs:235-262 | It sends any other primitive as it is, and a constructed value as an indefinite length around its children |
| BerStreaming.Walk | enclave/src/kms/ber.rs:216-264 | The helper consumes one DER value and appends its streaming form |
| BerStreaming.ToStreamingBer | enclave/src/kms/ber.rs:205-214 | The whole DER value becomes its streaming form |
| BerStreaming.StreamShape | enclave/src/kms/ber.rs:240-262 | Without `00 00` children the streaming form is legal and normalises to the tree it came from |
| BerStreaming.BalancedStream | enclave/src/kms/ber.rs:117-129 | A streaming form that can be read at all opens and closes equally often, so it has no `00 00` child |
| BerStreaming.OutputIsNormal | enclave/src/kms/ber.rs:133-166 | A DER value that the converter can give back has nothing to join and fits the depth limit |
| BerStreaming.StreamingRoundTrip | enclave/src/kms/ber.rs:205-264 | For every DER value under 2^32 bytes, converting its streaming form gives it back exactly when it fits the depth limit with nothing to join, no child is `00 00`, and every split string has room for one more level |
| ReplyCache.EvictOldestKeeps | parent/src/signed_responses.rs:69-79 | Evicting the oldest keeps the byte count equal to the stored sizes and the queue equal to the finished keys |
| ReplyCache.EvictExpiredKeeps | parent/src/signed_responses.rs:81-89 | So does evicting the expired, which drops only finished entries from the front |
| ReplyCache.MakeRoomKeeps | parent/src/signed_responses.rs:200-205 | The eviction loop ends with room for the reply, or with an empty queue |
| ReplyCache.StoreKeeps | parent/src/signed_responses.rs:190-209 | Storing keeps every invariant and limit, leaves other in-flight keys alone, and holds the reply exactly when it is within the byte limit |
| ReplyCache.BeginKeeps | parent/src/signed_responses.rs:168-176 | A new in-flight slot keeps the accounting |
| ReplyCache.ForgetKeeps | parent/src/signed_responses.rs:121-134 | Removing an in-flight slot keeps the accounting |
| ReplyCache.FinishedCount | parent/src/signed_responses.rs:62-65 | The queue is as long as there are keys with a finished reply; in-flight keys do not count |
| ReplyCache.FreshExactlyIfExpiredFirst | parent/src/signed_responses.rs:81-89 | One eviction, at any time and age limit, leaves only entries younger than the limit exactly when no expired entry stands behind one that is not |
| ReplyCache.FreshExactlyInClockOrder | parent/src/signed_responses.rs:81-89 | For a positive age limit, eviction leaves only younger entries at every time exactly when the queue is in clock order |
| ReplyCache.StaleReplyServed | parent/src/signed_responses.rs:112-118 | Two completions that read the clock in one order and lock in the other: an expired reply is served |
| ReplyCache.MakeRoomStops | parent/src/signed_responses.rs:200-205 | Eviction stops as soon as the reply fits: with one entry fewer evicted, a limit would be exceeded |
| ReplyLifetime.EvictsExpiredFront | parent/src/signed_responses.rs:81-89 | An eviction takes exactly the expired entries at the front |
| ReplyLifetime.ClaimExactly | parent/src/signed_responses.rs:159-178 | A finished reply is served exactly if some entry up to it has not expired; a running exchange is waited for; otherwise the caller leads on its own channel |
| ReplyLifetime.RoomStops | parent/src/signed_responses.rs:190-209 | The last entry that a store evicts had expired with all before it, or was in the way of the reply |
| ReplyLifetime.StoredIsServed | parent/src/signed_responses.rs:159-209 | A reply that was stored is served to a claim before its age limit |
| SignedReplyStore.SignedResponses.constructor | parent/src/signed_responses.rs:137-148 | A new store is empty and valid |
| SignedReplyStore.SignedResponses.EvictOldest | parent/src/signed_responses.rs:69-79 | Updates the object as specified, reports whether there was an entry, and never takes the byte count below zero |
| SignedReplyStore.SignedResponses.EvictExpired | parent/src/signed_responses.rs:81-89 | The loop drops exactly the expired front |
| SignedReplyStore.SignedResponses.ClaimOnce | parent/src/signed_responses.rs:159-178 | One look under the lock serves, waits or leads as specified and keeps the limits |
| SignedReplyStore.SignedResponses.Store | parent/src/signed_responses.rs:190-209 | The new state is the specified one, valid and within the limits |
| SignedReplyStore.SignedResponses.MakeRoom | parent/src/signed_responses.rs:201-205 | The loop evicts as specified |
| SignedReplyStore.SignedResponses.Release | parent/src/signed_responses.rs:121-134 | A dropped lead frees its key only while the slot is in flight |
| SignedReplyStore.SignedResponses.Stored | parent/src/signed_responses.rs:212-215 | The result is the number of keys with a finished reply, in-flight keys not counted |
| SingleFlight.StepKeepsInv | parent/src/signed_responses.rs:112-209 | Every atomic step of claims, completions, drops and wakes keeps the protocol invariant |
| SingleFlight.OneExchangePerKey | parent/src/signed_responses.rs:159-178 | In every reachable state a key has at most one running exchange, and its slot is in flight exactly while there is one |
| SingleFlight.StoreAlwaysBounded | parent/src/signed_responses.rs:190-209 | In every reachable state the accounting is exact and the byte and count limits hold |
| SingleFlight.ServedWasCompleted | parent/src/signed_responses.rs:112-118 | A served client holds a reply that an earlier lead of the same key gave to `complete` |
| SingleFlight.SettledForGood | parent/src/signed_responses.rs:116-132 | A channel that was sent a reply or closed never changes again |
| SingleFlight.WaiterGetsTheReply | parent/src/signed_responses.rs:179-186 | After a lead sends its reply, a waiter on its channel can only take that reply or leave, whatever the store kept |
| SingleFlight.ClosedChannelNotSeen | parent/src/signed_responses.rs:121-134 | After a dropped lead closes its channel, no later claim waits on it |
| SingleFlight.WaitersAreNotStuck | parent/src/grpc_server.rs:67-119 | A waiter can act, or the client that holds its channel can |
| SingleFlight.ServedRepliesAreFresh | parent/src/signed_responses.rs:159-166 | In runs whose completions lock in clock order, a claim finds only replies younger than the age limit |
| SingleFlight.StaleReplyServedInARun | parent/src/signed_responses.rs:112-118 | A run of the protocol, from an empty store, in which a client is served a reply past its age limit |
| SeedCustody.LoadKeys | enclave/src/seed_persistence.rs:72-181 | Whatever the store and KMS answer: a pinned call never generates or creates and activates only the pinned address; an unpinned call activates only the seed of the blob it generated; another's blob is never decrypted; each of the store and KMS calls is made exactly when it is due, in order and once; every refusal has its error; and success has an exact condition, from the credentials request to the derived address |
| SeedCustody.StepKeepsInv | enclave/src/seed_persistence.rs:72-124 | Every step of any attempt, and every late PUT, keeps the custody invariant |
| SeedCustody.NeverReplaced | parent/src/seed_persistence.rs:359-380 | In every run the object is written at most once and never replaced |
| SeedCustody.ActiveAgree | enclave/src/seed_persistence.rs:161-181 | Any two active attempts, at any two times, hold the one seed that the object decrypts to |
| SeedCustody.BootstrapNeedsEmptyStore | enclave/src/seed_persistence.rs:85-96 | On a store that held an object, an unpinned attempt never gets past loading |
| SeedCustody.ActiveForGood | enclave/src/seed_persistence.rs:161-168 | An active attempt stays active with the same seed |
| SeedCustody.BootstrapsShareABlob | enclave/src/seed_persistence.rs:97-113 | Two unpinned attempts can both be active only if the KMS gave both the same blob |
| SeedCustody.OneBootstrap | enclave/src/seed_persistence.rs:72-124 | With a KMS that never repeats a blob, at most one unpinned attempt is ever active |
| Policy.CanonicalIsOrdered | attestation-verify/src/policy.rs:326-330 | Sorting and deduplicating gives a strictly ordered list of the same selectors |
| Policy.CanonicalIsUnique | attestation-verify/src/policy.rs:326-330 | Two selector lists canonicalise alike exactly when they hold the same selectors |
| PolicyCodec.PosturePut | attestation-verify/src/policy.rs:380-413 | Reading the first run of fields after writing it gives it back and leaves what follows |
| PolicyCodec.PutPostureBack | attestation-verify/src/policy.rs:297-306 | What reads as that run was written by it |
| PolicyCodec.EvidencePut | attestation-verify/src/policy.rs:414-431 | The same for the deposit and host fields with the optional TLS pin |
| PolicyCodec.PutEvidenceBack | attestation-verify/src/policy.rs:307-320 | What reads as that run was written by it |
| PolicyCodec.GasPut | attestation-verify/src/policy.rs:432-444 | The gas rule reads back with its selectors sorted and deduplicated |
| PolicyCodec.PutGasBack | attestation-verify/src/policy.rs:322-334 | What reads as a gas rule is canonical and was written by it |
| PolicyCodec.KmsOptionPut | attestation-verify/src/policy.rs:446-456 | The optional KMS pin reads back |
| PolicyCodec.DecodeIsExact | attestation-verify/src/policy.rs:372-489 | Whatever decodes is canonical, fits its length fields and encodes to exactly those bytes |
| PolicyCodec.CanonEncodes | attestation-verify/src/policy.rs:326-334 | A policy and its canonical form have the same bytes |
| PolicyCodec.RoundTrip | attestation-verify/src/policy.rs:268-489 | Decoding an encoding gives the policy with selectors sorted and deduplicated, exactly when every length fits 32 bits |
| PolicyCodec.EncodeIsInjective | attestation-verify/src/policy.rs:268-367 | Policies that differ at most in the order and repetition of selectors have one encoding, and no others whose lengths fit 32 bits do |
| PolicyCodec.LongStringsCollide | attestation-verify/src/policy.rs:340-343 | Two different KMS pins with one string of 2^32 bytes print alike |
| PolicyCodec.InjectiveExactlyTo | attestation-verify/src/policy.rs:268-367 | The encoding tells all policies of lengths up to a cap apart, up to selector order, exactly when the cap is below 2^32 |
| PolicyCodec.DecodesExactlyEncodings | attestation-verify/src/policy.rs:372-489 | Bytes decode exactly when they are the encoding of a policy whose lengths fit |
| PolicyCodec.PrefixFree | attestation-verify/src/policy.rs:485-489 | An accepted encoding with anything after it is refused as trailing bytes, so none is a proper prefix of another |
| PolicyLayout.Layout | attestation-verify/src/policy.rs:268-367 | Every byte of an encoding by its offset: version, kind and tag numbers, big-endian numbers, lengths and strings, the selectors once each in numeric order, the optional parts, and no byte after the last; development is `01 00` |
| PolicyLayout.MostSignificantFirst | attestation-verify/src/policy.rs:302-305 | Numbers are read most significant byte first |
| PolicyErrors.HeadErrors | attestation-verify/src/policy.rs:372-413 | For all bytes: which byte value at which offset is refused with which error, and which lengths as truncated or trailing |
| PolicyErrors.TextErrors | attestation-verify/src/policy.rs:540-543 | A string is refused as truncated when short, and else exactly when it is not UTF-8 |
| PolicyErrors.FinalityErrors | attestation-verify/src/policy.rs:415-420 | A finality byte above 2 is refused as such |
| PolicyErrors.SelectorErrors | attestation-verify/src/policy.rs:436-444 | A selector list is read back exactly if each stands before the next, and else refused as not ordered |
| Utf8Text.Utf8Exactly | attestation-verify/src/policy.rs:540-543 | A string is UTF-8 exactly if it is some Unicode scalar values written out |
| PolicyWire.ToBytes | attestation-verify/src/policy.rs:268-367 | The buffer ends as the encoding, whose every byte `PolicyLayout.Layout` gives |
| PolicyWire.PushSelectors | attestation-verify/src/policy.rs:331-334 | The loop appends the count and every selector in order |
| PolicyWire.Reader.Take | attestation-verify/src/policy.rs:511-518 | Takes the front bytes off, or reports truncation exactly when there are too few |
| PolicyWire.Reader.Flag | attestation-verify/src/policy.rs:528-534 | Only 0 and 1 are presence bytes |
| PolicyWire.Reader.Text | attestation-verify/src/policy.rs:540-543 | A length-prefixed string, refused when short or not UTF-8 |
| PolicyWire.Reader.ReadSelectors | attestation-verify/src/policy.rs:436-444 | The loop accepts exactly a strictly ordered list of the announced length |
| PolicyWire.Reader.ReadPosture | attestation-verify/src/policy.rs:380-413 | Agrees with the specified reader, error by error |
| PolicyWire.Reader.ReadEvidence | attestation-verify/src/policy.rs:414-431 | Agrees with the specified reader, error by error |
| PolicyWire.Reader.ReadGas | attestation-verify/src/policy.rs:432-444 | Agrees with the specified reader, error by error |
| PolicyWire.Reader.ReadKms | attestation-verify/src/policy.rs:446-456 | Agrees with the specified reader, error by error |
| PolicyWire.FromBytes | attestation-verify/src/policy.rs:372-489 | The result, or the error, is that of the decoder, which accepts exactly the encodings and refuses by `PolicyErrors` |
| LaunchCheck.DecimalIsInjective | parent/src/launch_check.rs:279-297 | Different numbers print differently |
| LaunchCheck.HexIsInjective | parent/src/launch_check.rs:267 | Different byte strings print differently |
| LaunchCheck.JoinedIsInjective | parent/src/launch_check.rs:298-305 | Different canonical selector lists print differently |
| LaunchCheck.FieldsDecide | parent/src/launch_check.rs:239-325 | The two field lists name the same fields up to and at the first difference, and agree throughout exactly when the policies agree up to selector order |
| LaunchCheck.ComparePolicy | parent/src/launch_check.rs:224-235 | The loop over the zipped lists gives the specified verdict |
| LaunchCheck.ComparePassesExactly | parent/src/launch_check.rs:224-235 | The check passes exactly when the expected policy's lengths fit and it encodes to the attested bytes; the final byte comparison is never the one that refuses |
| LaunchCheck.RefusalNamesTheField | parent/src/launch_check.rs:222-235 | On bytes that decode, a refusal names the first field that differs, under the same name in both lists, with both values |
| LaunchFields.RefusalNamesTheFirstDifference | parent/src/launch_check.rs:222-325 | The name in a refusal is that of the first field, in the order of the source, whose value in the two policies differs |
| PolicyAgreement.NumberAgrees | parent/src/launch_check.rs:33-40 | A number that the parent accepts is the one the enclave reads, trimmed or not, and unset or empty is zero to both |
| PolicyAgreement.SelectorsAgree | enclave/src/config.rs:318-344 | Where the parent accepts every selector entry, the enclave drops none |
| PolicyAgreement.NetworkAgrees | enclave/src/networks/rgb/spv/types.rs:33-43 | The two network tables agree, and a blank network that the parent defaults stops the enclave |
| PolicyAgreement.ConfirmationsAgree | enclave/src/config.rs:561-572 | The witness depth the parent expects is the one the enclave enforces |
| PolicyAgreement.HostAgrees | enclave/src/config.rs:835-896 | A release enclave attests the indexer host that the parent derives |
| PolicyAgreement.TlsAgrees | enclave/src/bootstrap.rs:122-129 | Both pin the same host and CA hash |
| PolicyAgreement.KmsAgrees | enclave/src/config.rs:725-778 | Both give the same KMS pin, or none |
| PolicyAgreement.GasAgrees | enclave/src/policy.rs:198-238 | Both give the same gas rule, all zero for a mint signer |
| PolicyAgreement.PoliciesAgree | parent/src/launch_check.rs:20-173 | For every environment, endpoint set and role: if the parent expects a policy and the enclave launches with a production one over pinned TLS, they are equal, with the document's PCR3 and the enclave's own |
| PolicyAgreement.LaunchCheckPasses | parent/src/launch_check.rs:201-220 | So the launch check passes on the attested bytes exactly when their lengths fit |
| Parsers.FinalityNames | attestation-verify/src/policy.rs:96-109 | `latest`, `safe` and `finalized` give those tags, and nothing else does |
| Parsers.NetworkNames | attestation-verify/src/policy.rs:127-137 | The names of each network, and no others |
| Parsers.LowerIs | parent/src/launch_check.rs:154 | Lowering changes the letters A to Z and no other byte |
| Parsers.NumberReads | parent/src/launch_check.rs:35-40 | The digits of a number, with leading zeros or a plus sign or without, give that number exactly below the bound |
| Parsers.OnlyItsDigits | parent/src/launch_check.rs:35-40 | Nothing else gives that number |
| Parsers.HexReads | parent/src/launch_check.rs:175-180 | Hex digits in either case, with `0x` or without, give the bytes that print as them, and nothing else does |
| Parsers.SplitJoined | parent/src/launch_check.rs:115 | A joined list splits into its parts |
| Parsers.SplitRejoins | parent/src/launch_check.rs:115 | Every string is cut at every separator, so its parts are the only ones |
| Parsers.Trims | parent/src/launch_check.rs:116 | White space around visible text is trimmed, and no more |
| Parsers.EntriesOf | parent/src/launch_check.rs:113-117 | The entries of a comma-separated list of visible parts are those parts |
| Parsers.HostOfUrl | parent/src/launch_check.rs:134-155 | The host of a URL with a port is all before the last colon, lowered, for every scheme, host and port |
| Parsers.HostWithoutPort | parent/src/launch_check.rs:149-153 | Without a port it is the rest of an http URL, and an Electrum URL is refused |
| PrintedPolicy.ParentExpectsThePolicy | parent/src/launch_check.rs:19-129 | From an environment and endpoints in which a policy's values are printed under their keys, the parent expects that policy |
| PrintedPolicy.EnclaveAttestsThePolicy | enclave/src/policy.rs:166-238 | A release enclave launched with them comes up in production exactly if no required value is missing, the endpoints are good and the relay check is on; and it then attests that policy with its own PCR3 |
| PrintedPolicy.UnsetInputs | parent/src/launch_check.rs:41-94 | What an unset finality tag, network and witness depth stand for, and that `latest` is refused |
| Commitment.CanonicalBundle | parent/src/attest_verify.rs:136-159 | The loop's bytes followed by any policy are the commitment preimage |
| Commitment.PreimageLayout | parent/src/attest_verify.rs:136-159 | The thirteen named parts stand in the preimage in the source's order, each after its four-byte length, the chain id as eight bytes, and the policy bytes follow |
| Commitment.PartsAreUnique | enclave/src/server/keys.rs:192-216 | Length-prefixed parts under 2^32 bytes can be read back in one way only |
| Commitment.PreimageIsUnique | parent/src/attest_verify.rs:261-265 | The preimage determines all thirteen parts and the policy bytes |
| Commitment.PreimagesCollideExactly | attestation-verify/src/policy.rs:495-501 | A keyed preimage is also a policy-only one exactly when the tag reads as the length and start of the address |
| Commitment.KeyedIsNotPolicyOnly | attestation-verify/src/policy.rs:492-501 | With a 20-byte address the two preimages never meet |
| WireShape.Walk | enclave/src/framing.rs:120-147 | The budget comes back less the count, exactly when the message is well formed along the schema and its count fits the budget; otherwise a well-formed message is refused for its size |
| WireShape.CountRequestElements | parent/src/request_shape.rs:98-102 | The result is `n` exactly when the frame's count is `n` and at most 2^19 |
| WireShape.CountIsAdditive | enclave/src/framing.rs:120-147 | Field sequences written one after the other count for themselves |
| WireShape.BuildsAtMostTheCount | parent/src/request_shape.rs:328-351 | A decode that appends repeated fields, merges message fields and overwrites oneofs succeeds only on what has a count, pushes at most as many elements as were counted, and keeps at most what it pushed |
| WireShape.AcceptedFrameIsBounded | enclave/src/framing.rs:61-66 | A frame that decodes is refused for its size alone, and one that passes decodes to at most 2^19 elements |
| WireShape.HeadersCountAsLeaf | parent/src/request_shape.rs:79-84 | Walking a headers request as a leaf gives the count of its own schema |
| WireWriter.CountsEveryOccurrence | enclave/src/framing.rs:90-147 | For every request written by field number, with numbers, fixed fields, bytes, groups and nested sign and header messages in any order, the count is the number of fields written at every level |
| WireWriter.ParentCountsEveryOccurrence | parent/src/request_shape.rs:79-132 | The same for a `Sign` request by the parent's field numbers, and for any other request as one flat message |
| WireWriter.GroupsCountOnce | enclave/src/framing.rs:129-135 | A group counts once, whatever it holds, and is refused exactly when groups nest a hundred deep |
| WireWriter.ProofFrameCount | enclave/src/framing.rs:304-330 | A frame of `n` entries `32 02 22 00` counts 2 + 2n, so 262,143 of them are the most that pass |
| WireWriter.DecodePushesEveryElement | enclave/src/framing.rs:61-66 | Such a request decodes, and the decode pushes one element for each proof, path element and header written |
| WireWriter.ParentDecodePushesEveryElement | parent/src/request_shape.rs:61-72 | The same for the parent's `Sign` request |
| HeaderRate.HeaderSync.DropExpired | parent/src/header_sync.rs:264-270 | The loop keeps the history's invariant, drops an expired front and leaves a front younger than the window |
| HeaderRate.HeaderSync.Used | parent/src/header_sync.rs:271 | The sum of the batches still in the window |
| HeaderRate.HeaderSync.WaitForRate | parent/src/header_sync.rs:261-280 | Terminates and records the batch; every 60-second window of the history then holds at most 50,000 headers exactly when the batch itself does; a batch with room beside those less than a window old never sleeps |
| HeaderRate.Recorded | parent/src/header_sync.rs:271-279 | A batch that fits beside all younger than a window keeps the history within the limit |
| HeaderRate.EveryWindowIsLimited | parent/src/header_sync.rs:29-31 | In such a history any half-open window of 60 seconds totals at most 50,000 |
| TokenBucket.Peer.TakeToken | parent/src/seed_persistence.rs:267-278 | One call moves the bucket and admits as the run functions say, and keeps it between empty and full |
| TokenBucket.AdmitsAtMost | parent/src/seed_persistence.rs:267-278 | A stretch of calls in any order of times admits at most the burst and the rate over its climbs |
| TokenBucket.IntervalAdmitsAtMost | parent/src/seed_persistence.rs:267-278 | In every run in clock order an interval of `t` seconds admits at most 8 + 4t |
| TokenBucket.ClimbsAdmit | parent/src/seed_persistence.rs:267-278 | However short an interval, calls within it can pass the burst by any number, a quarter of a second of climb for each |
| TokenBucket.BoundHoldsExactlyTo | parent/src/seed_persistence.rs:267-278 | In any order of calls whose times climb by at most `c`, an interval of `t` seconds keeps to 8 + 4t exactly when the whole tokens in 4c are at most 4t, or `t` is zero |
| TokenBucket.OutOfOrderAdmitsMore | parent/src/seed_persistence.rs:446 | Calls that lock out of clock order can pass that bound |
| FixedWindow.Budget.ChargeOne | parent/src/transport_security.rs:220-237 | One charge moves the window and admits as the run functions say, within the limit |
| FixedWindow.OneWindow | parent/src/transport_security.rs:220-237 | Until the window elapses, exactly the smaller of the number of calls and what was left of it is admitted |
| FixedWindow.NewWindow | parent/src/transport_security.rs:220-237 | The first call a period after the start opens a window that admits the smaller of the number of calls and the limit |
| FixedWindow.PeriodAdmitsAtMost | parent/src/transport_security.rs:201-237 | In every run a half-open interval of one period admits at most twice the limit |
| CertPath.CheckValidityWindow | attestation-verify/src/lib.rs:693-701 | With saturating arithmetic, acceptance is still exactly the window widened by the skew of 60 seconds; before it is not yet valid, after it expired |
| CertPath.CheckCaConstraints | attestation-verify/src/lib.rs:565-614 | One step of the budget, and exactly when an issuer is refused, malformed extensions included |
| CertPath.CheckIssuers | attestation-verify/src/lib.rs:500-507 | The running budget accepts exactly when every issuer signs the next, may issue, and is followed by at most its own path length of further issuers; the initial budget never binds |
| CertPath.TrustedIs | attestation-verify/src/lib.rs:470-532 | The condition of a trusted chain in the fields of its certificates: the window widened by 60 seconds, signatures, CA flag, key usages and path lengths |
| CertPath.ParseChain | attestation-verify/src/lib.rs:487-498 | Every certificate parses and is in its window, or no parsed chain is valid throughout |
| CertPath.VerifyCertificateChain | attestation-verify/src/lib.rs:470-532 | Accepts exactly a bundle anchored at the root whose chain is valid, well issued, and sealed by a leaf that may sign; a refusal names something wrong with the bundle or the chain |

## Left out

- BerConverter.ConvertToDer: takes inputs under 2^47 bytes, so that lengths stay within 64 bits; the caller's cap is 8 KiB.
- BerConverter.IdempotentExactlyTo: takes inputs under 2^47 bytes, as the conversion itself does.
- BerStrings.StringsAreJoined: takes inputs under 2^47 bytes, as the conversion itself does.
- WireWriter.CountsEveryOccurrence: numbers are written in their shortest form; longer varints are read, and not written.
- WireWriter.ProofFrameCount: below 2^28 entries; a frame of 24 MiB holds far fewer.
- PrintedPolicy.EnclaveAttestsThePolicy: for an `ssl://` indexer with a port, and a policy with a pinned TLS source.
- EnclavePolicy.Launch: the reason of a development policy, builds without SPV beyond their being development, and boot stops caused by settings that the policy does not hold.
- LaunchCheck.Fields: built as a value; the source pushes the entries onto a list.
- PolicyCodec.Encode: the source's library sort and dedup are one function here; its production fields are grouped in consecutive runs.
- TokenBucket.Peer.TakeToken: real numbers, so floating-point rounding is not modelled.
- WireShape.Skip: the prost library is not part of the repository; varints, keys and skipped fields follow its documented wire behaviour, recursion limit included.
- WireShape.Decode: keeps only lists and the message that holds them; the parent's oneof tags are a parameter, since that schema is not part of the repository.
- HeaderRate.HeaderSync.WaitForRate: cancellation of the sleeping task is not modelled.
- All cryptography: COSE and X.509 signatures, hashes, key derivation, envelope decryption.
- Sockets, vsock, TLS, gRPC plumbing, frame reading and timeouts, beyond a check that may fail.
- The cloning handshake, SPV chain, RGB validation, PSBT checks and request dispatch.
- Header sync apart from its rate limit: fetching, fork repair, status and stall reporting.
- S3 and KMS wire details, and the broker's JSON framing and semaphores.
- An image environment that lists one name twice: the environment is a map.
- The memory model of a request and its measured constants.
