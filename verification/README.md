# A verified model of ZERO-WINDOW

ZERO-WINDOW keeps examination papers encrypted until a scheduled moment. The key of each bundle is split
among custodians, released by a threshold of them to examination centres, and everything that happens is
written to signed, hash-chained logs that an independent audit can check. This project models the parts on
which that promise rests and proves their properties with Dafny. `dafny verify dfyconfig.toml` checks all
of it.

- **Threshold cryptography.** `Product` is the carry-less product, `Generator` the order of 0x03, and `Gf256`
  the table-building loops and the field laws; `Polynomials` has evaluation, division, the root bound and
  interpolation; `Shamir` splits, combines, shows that t - 1 shares hide the secret, and has the wire
  format; `KekEngine` composes them.
- **Transparency log.** `Canonical` is the JSON encoder with a reader as its inverse; `Merkle` the tree of
  section 2.1 of RFC 6962; `Log` the records; `LogStore` the concurrent append as a state machine and
  `TransparencyLog` the object whose methods are its steps; `LogVerify` the independent verification;
  `HonestLog` joins the two; `Evidence` is the file format; `Published` goes from the file to the auditor's
  verdict; `Der` and `Oid` are the X.690 codec.
- **Deterministic generator.** `Prng`.
- **Release and custody.** `Authority` and `Centre` are the two services, each as a state machine and as an
  object whose methods are its steps; `Protocol` runs them together with everything else that can happen;
  `Audit` has the T7 and T9 loops; `HonestRun` gives concrete runs.
- `KnownAnswers` has small inputs with their outputs spelled out. `Bytes`, `Dates`, `Sorting`, `Splitting`,
  `Tables` and `Wrappers` are shared.

Assumptions are parameters or preconditions, never axioms. Hash functions are parameters, and results about
them say "equal, or here are two different inputs with one hash" with inputs that were actually hashed. A
signature is a parameter in the log and ideal in the protocol: only the authority makes its signatures. In
the protocol a fingerprint is the key itself, a sealed box can be opened by its addressee only, a ciphertext
opens under its own key and associated data only, and shares are symbols: a combination that yields a key of
the authority used a threshold of genuine shares of that key's split. Nobody can put a key of the authority
into a box before that key has been released: that is assumed of the sealed boxes and shares, not derived
from who can open which of them, and the order of release and receipt rests on it (`Protocol.BoxPossible`).
Randomness, time, the JSON parser, rendering and the printing back end are parameters.

Where the code and its comments differ, the model follows the code:

- The comment on `append` (packages/log/src/store.ts:149-153) says that a transaction keeps concurrent writers
  apart. It ends before the signature is awaited; the primary key on `seq` is what makes one of them fail.
- The length check of `encodeLength` (packages/log/src/asn1.ts:46) cannot fire, because the unsigned shift has
  already reduced the length modulo 2^32. Exactly the lengths below 2^32 survive.
- Identifiers under arc 2 whose second arc is 40 or more are accepted by `derOid` and decode to something else.
- Verification promises a report. Where a time goes back it writes both times as dates, and that throws for a
  time beyond 8.64e15 ms, which canonical JSON and `append` accept: an honest log can have no report
  (`HonestLog.HonestLogWithoutReport`). The refusal of an early release throws in the same way.
- Provisioning with a custodian named twice fails after the bundle is stored and before its ceremony is
  logged, so T9 flags every later release of it (`Audit.CeremonyIsLogged`).
- `nextBelow` accepts nothing for n above 2^32 and would not return.
- A release checks that custodians are enrolled, not that they were issued a share of the bundle, while T9
  expects the latter; `HonestRun.AuditFlagsAStranger` is a run where they disagree.

## Model

| member | source | states |
|---|---|---|
| Generator.GeneratorOrder | packages/crypto/src/gf256.ts:15-25 | 0x03 generates the field's non-zero elements: its powers return to 1 exactly at the multiples of 255 |
| Generator.EveryNonZeroIsPower | packages/crypto/src/gf256.ts:15-25 | every non-zero byte is one of the first 255 powers that the loop visits, so LOG is total on them |
| Gf256.Tables.constructor | packages/crypto/src/gf256.ts:15-25 | the table-building loops leave EXP[i] = 3^i for all 512 entries and LOG inverse to it |
| Gf256.Tables.GfMul | packages/crypto/src/gf256.ts:27-30 | the table lookup is the field product (carry-less product reduced by 0x11b), zero factors included |
| Gf256.Tables.GfInv | packages/crypto/src/gf256.ts:32-35 | undefined exactly at zero, otherwise the multiplicative inverse |
| Gf256.Tables.GfDiv | packages/crypto/src/gf256.ts:37-41 | undefined exactly for divisor zero, otherwise the quotient that multiplies back to the dividend |
| Product.TimesDistributes | packages/crypto/src/gf256.ts:27-46 | the product distributes over exclusive or in each factor |
| Gf256.TimesAssociates | packages/crypto/src/gf256.ts:27-30 | the product is associative |
| Gf256.TimesCommutes | packages/crypto/src/gf256.ts:27-30 | the product is commutative |
| Gf256.NoZeroDivisors | packages/crypto/src/gf256.ts:27-30 | a product is zero exactly when a factor is |
| Gf256.TimesCancels | packages/crypto/src/gf256.ts:37-41 | division is unique: a non-zero factor can be cancelled |
| KnownAnswers.ProductOfFips197 | packages/crypto/src/gf256.ts:27-30 | 0x57 times 0x83 is 0xc1 |
| Polynomials.GfPolyEval | packages/crypto/src/gf256.ts:48-54 | the Horner loop from the last coefficient down computes the value of the polynomial |
| Polynomials.TooManyRoots | packages/crypto/src/shamir.ts:6-13 | a polynomial with as many distinct roots as coefficients is zero |
| Polynomials.InterpolationIsUnique | packages/crypto/src/shamir.ts:98-109 | exactly one polynomial with t coefficients passes through t points with distinct x |
| Polynomials.DotProductRecovers | packages/crypto/src/shamir.ts:98-119 | weighting t values with the basis values at zero and adding gives the constant term |
| Shamir.Split | packages/crypto/src/shamir.ts:42-72 | each argument error exactly for its reason; otherwise share j has index j + 1 and, byte by byte, the evaluations there of polynomials whose constant terms are the secret and whose other coefficients are the fill |
| Shamir.CheckShares | packages/crypto/src/shamir.ts:80-96 | the validation loop with its set of seen indices returns the first complaint |
| Shamir.CombineErrorMeaning | packages/crypto/src/shamir.ts:80-96 | the validation accepts exactly: at least a threshold of shares, one split, one threshold and length, distinct indices in 1..255 |
| Shamir.CombineErrorNames | packages/crypto/src/shamir.ts:80-96 | a refusal says what is wrong: no shares, too few, or the first defect of the first defective share |
| Shamir.LagrangeAt | packages/crypto/src/shamir.ts:100-109 | the numerator/denominator loop over distinct points never divides by zero and gives L_j(0) |
| Shamir.Combine | packages/crypto/src/shamir.ts:79-121 | errors exactly as validated, output buffer untouched on error; otherwise the Lagrange sum at zero of the first t shares |
| Shamir.SplitThenCombine | packages/crypto/src/shamir.ts:42-121 | for every secret, 2 <= t <= n <= 255 and every fill, any list of at least t distinct shares in any order combines to the secret |
| Shamir.CombinedIsConstantTerm | packages/crypto/src/shamir.ts:98-119 | whatever shares are accepted, the result is the constant terms of the polynomials through the first t of them |
| Shamir.EverySecretHasOneFill | packages/crypto/src/shamir.ts:11-13 | whatever t - 1 points show, each secret byte is explained by exactly one choice of the other coefficients |
| Shamir.SharesBelowThresholdHideTheSecret | packages/crypto/src/shamir.ts:57-71 | t - 1 shares of a split are also shares of every other secret of that length, under exactly one fill |
| Shamir.Serialize | packages/crypto/src/shamir.ts:126-137 | where each field is and what the checksum covers; numbers are stored modulo 256; both errors exactly for their reasons |
| Shamir.ParseSerialized | packages/crypto/src/shamir.ts:126-157 | a serialised share parses back to itself if and only if it has a value byte and its index and threshold are bytes |
| Shamir.SerializeParsed | packages/crypto/src/shamir.ts:139-157 | whatever parses is the serialisation of what it parses to |
| KekEngines.KekEngine.Generate | packages/crypto/src/kek-engine.ts:40-49 | refused when closed or already held; otherwise holds the new key and returns its fingerprint |
| KekEngines.KekEngine.Import | packages/crypto/src/kek-engine.ts:52-67 | refused when closed, already held or of the wrong length, leaving the key map alone |
| KekEngines.KekEngine.SplitAndDestroy | packages/crypto/src/kek-engine.ts:87-109 | too few custodians leaves the key held; past that check the key is forgotten on success and on every failure; box i is for custodian i and holds the share with index i + 1 of the split |
| KekEngines.KekEngine.ReconstructWrapRelease | packages/crypto/src/kek-engine.ts:124-172 | each error exactly for its reason, in order; otherwise each recipient, in order, gets a box for its own key that holds the combined key, with the key's fingerprint beside it |
| KekEngines.KekEngine.Close | packages/crypto/src/kek-engine.ts:174-177 | no key survives closing |
| KekEngines.SplitThenRelease | packages/crypto/src/kek-engine.ts:87-172 | any threshold of the shares that a split sealed, opened and submitted in any order, gives every recipient a box for its own key that holds exactly the split key, with that key's fingerprint |
| Merkle.LargestPowerOfTwoBelow | packages/log/src/merkle.ts:44-48 | the loop returns the largest power of two strictly below n |
| Merkle.RootIsTheTreeHash | packages/log/src/merkle.ts:10-42 | the root is the hash of nothing, of 0x00 and the entry, or of 0x01 and the roots of the two parts, split at the power of two |
| Merkle.RootIsBinding | packages/log/src/merkle.ts:16-42 | equal roots of two lists of any lengths mean equal lists, or two different hashed strings with one hash |
| Merkle.InclusionProof | packages/log/src/merkle.ts:54-74 | pushing siblings on the way up produces the sibling path; an index out of range is refused |
| Merkle.ProofIsTheAuditPath | packages/log/src/merkle.ts:54-74 | the path of an entry is its path in its part of the tree and then the root of the other part |
| Merkle.InclusionIsSound | packages/log/src/merkle.ts:94-124 | acceptance at any claimed size and index against a real root means the leaf is in the list, at that index if the size is true, or a collision |
| Merkle.InclusionIsComplete | packages/log/src/merkle.ts:54-124 | the generated proof verifies for every list and index |
| Merkle.InclusionIsCanonical | packages/log/src/merkle.ts:94-124 | two accepted proofs for one leaf, index, size and root are equal, or a collision |
| Merkle.ProofIsShort | packages/log/src/merkle.ts:54-74 | a proof is at most ceiling(log2 size) long |
| Canonical.EscapeString | packages/log/src/canonical.ts:42-77 | the appending loop produces the quoted, escaped string |
| Canonical.Canonicalize | packages/log/src/canonical.ts:79-152 | returns the canonical text exactly of the accepted values and otherwise the first complaint in evaluation order |
| Canonical.SortOrdered | packages/log/src/canonical.ts:135-135 | the keys are sorted by UTF-16 code units and none is lost |
| Canonical.LessMeaning | packages/log/src/canonical.ts:135-135 | keys compare by the first UTF-16 code unit that differs, and a proper prefix comes first |
| Canonical.ErrorOfMeaning | packages/log/src/canonical.ts:79-147 | a value is rejected exactly when somewhere in it there is something that canonical JSON excludes |
| Canonical.ErrorIsBlame | packages/log/src/canonical.ts:79-147 | the complaint about a rejected value is true of its first offending part, objects taken in key order |
| Canonical.ReadPrinted | packages/log/src/canonical.ts:79-147 | reading canonical text gives back the value's meaning, whatever follows it |
| Canonical.SameMeaningSameText | packages/log/src/canonical.ts:132-147 | values equal with objects read as finite maps have the same text, whatever the insertion order of keys |
| Canonical.CanonicalTextIsTheMeaning | packages/log/src/canonical.ts:79-152 | two accepted values have the same text if and only if they are equal with objects read as finite maps |
| KnownAnswers.SampleIsPrinted | packages/log/src/canonical.ts:42-152 | one value with every kind of part and its canonical text, code unit by code unit |
| Log.CommitmentIsBinding | packages/log/src/store.ts:22-32 | two entries have the same commitment if and only if their bodies say the same |
| Log.SameBodyFields | packages/log/src/store.ts:382-391 | equal bodies agree in seq, ts, type, actor, prevHash and in the meaning of the payload |
| Log.CommitmentText | packages/log/src/store.ts:22-32 | the hashed text of an entry is exactly its six properties in key order |
| Log.CheckpointText | packages/log/src/store.ts:34-44 | the signed text of a checkpoint is exactly its four properties in key order |
| Log.HexInjective | packages/log/src/store.ts:177-183 | the hexadecimal form of a hash determines the hash |
| LogStore.EveryRunIsAChain | packages/log/src/store.ts:85-203 | under every interleaving of split appends and checkpoints the entries are a dense, signed chain from the zero hash and finished appends inserted different rows |
| LogStore.InsertSucceedsIffHeadUnmoved | packages/log/src/store.ts:154-203 | a signed entry is inserted exactly when its head is still the head and its hash is new |
| LogStore.OneWriterWins | packages/log/src/store.ts:154-203 | of any two appends that read the same position, signed yet or not, at most one ever inserts, whatever happens in between; once one has, the insert of the other changes nothing and fails |
| LogStore.NoTwoSuccessors | packages/log/src/store.ts:85-95 | no two entries follow the same entry |
| LogStore.HistoryIsPermanent | packages/log/src/store.ts:108-119 | in every later state each entry is unchanged and each stored checkpoint is correct for its prefix |
| LogStore.EveryEntryWasAskedFor | packages/log/src/store.ts:154-203 | in every run each entry was inserted by a call that asked for exactly its type, time and payload |
| LogStore.EveryCheckpointWasAskedFor | packages/log/src/store.ts:228-264 | in every run each stored checkpoint has the time that some call gave it |
| TransparencyLogs.TransparencyLog.BeginAppend | packages/log/src/store.ts:154-179 | append up to its await drafts what was asked for, type, time and payload, at the head of the log and in its name |
| TransparencyLogs.TransparencyLog.FinishAppend | packages/log/src/store.ts:180-203 | append after its await extends the log by exactly that entry, with the hash of its text and a verified signature, or changes nothing |
| TransparencyLogs.TransparencyLog.BeginCheckpoint | packages/log/src/store.ts:228-241 | createCheckpoint up to its await states the root and head of the whole log at the given time |
| TransparencyLogs.TransparencyLog.FinishCheckpoint | packages/log/src/store.ts:242-264 | createCheckpoint after its await stores the signed checkpoint unless that size has one, which it then keeps and returns |
| TransparencyLogs.TransparencyLog.AttachAnchors | packages/log/src/store.ts:268-285 | anchors only accumulate, and only if every one imprints the stored root |
| TransparencyLogs.TransparencyLog.ExportEvidence | packages/log/src/store.ts:315-326 | the exported bundle has the log's entries in order, its checkpoints by size and its signer, and is clean for every auditor who trusts the right key |
| LogVerify.VerifyChain | packages/log/src/verify.ts:67-150 | free of fatal findings exactly when every entry is in place, has the hash of its own text, a signature that verifies over that text and a trusted key; throws exactly for a body without canonical text or where a time goes back and one of the two times cannot be shown as a date |
| LogVerify.FindingsOfEntry | packages/log/src/verify.ts:74-145 | an entry gets each finding exactly for its own reason, an invalid-entry finding exactly when hash or signature is not that of its text, and no others |
| LogVerify.FindingsOfChain | packages/log/src/verify.ts:67-150 | the findings of a chain are those of its entries |
| LogVerify.VerifyCheckpoints | packages/log/src/verify.ts:156-258 | is free of fatal findings exactly when every checkpoint is signed, covered, correct, trusted and anchored and no two of one size disagree |
| LogVerify.FindingsOfCheckpoint | packages/log/src/verify.ts:164-228 | a checkpoint gets a bad-signature or an overrun finding alone, or else each of four others exactly for its own reason |
| LogVerify.FindingsOfCheckpoints | packages/log/src/verify.ts:156-258 | the findings about checkpoints are those of each and those of neighbours by size |
| LogVerify.FindingsOfNeighbours | packages/log/src/verify.ts:230-255 | two neighbours are a fork exactly for equal sizes with different roots, and get a warning exactly when the time goes back |
| LogVerify.ForksAreFound | packages/log/src/verify.ts:230-246 | comparing neighbours after sorting by size finds a fork whenever any two checkpoints of one size have different roots |
| LogVerify.VerifyEvidence | packages/log/src/verify.ts:326-360 | throws exactly where a walk throws; otherwise ok exactly for version 1, genuine entries and checkpoints, and no fork, under the named keys or else the bundle's own |
| LogVerify.SameHeadSameHistory | packages/log/src/verify.ts:67-150 | two clean histories that end in the same hash have the same length and bodies, or an entry-hash collision |
| LogVerify.SameRootSamePrefix | packages/log/src/verify.ts:182-203 | two clean histories with checkpoints of the same root agree on everything those cover, or a collision of the entry or the tree hash |
| HonestLog.HonestLogsVerify | packages/log/src/verify.ts:326-360 | the evidence of every reachable state of the log is clean, and verification reports that if and only if every time that goes back does so between dates |
| HonestLog.HonestLogWithoutReport | packages/log/src/verify.ts:115-123 | two honest appends at 9e15 ms and then 0 make clean evidence on which verification throws |
| Evidence.SerializeEvidence | packages/log/src/evidence.ts:33-52 | refuses exactly bundles with a record without canonical text; otherwise writes the header, entries by seq and checkpoints by size |
| Evidence.ParseEvidence | packages/log/src/evidence.ts:61-131 | the loop computes the specified parse: first complaint by line, then missing header, then the declared counts |
| Evidence.ParseMeaning | packages/log/src/evidence.ts:61-131 | a file is accepted exactly when its first line is a header of this kind and version, the others are entries and checkpoints, and the counts are right |
| Evidence.ParseComplains | packages/log/src/evidence.ts:61-131 | every complaint is true: the first line that may not stand where it is and why, else a missing header, else a wrong count |
| Evidence.ParseSerialized | packages/log/src/evidence.ts:33-131 | parsing a serialised bundle gives its records, entries ordered by seq and checkpoints by size |
| Evidence.SameFileIffSameContents | packages/log/src/evidence.ts:33-131 | two bundles serialise to one text if and only if they say the same |
| Evidence.SerializeParsed | packages/log/src/evidence.ts:33-131 | any bundle serialises to a given file if and only if it says what the file parses to |
| Evidence.ParsedBundleSaysTheSame | packages/log/src/evidence.ts:61-131 | the bundle that parsing returns, version 1 and the records in file order, says what was serialised, and serialising it gives the file back |
| Evidence.InFileOrder | packages/log/src/evidence.ts:46-51 | the entries of a file are those of the bundle by seq, and its checkpoints by size, none lost |
| Evidence.SameViewSameBundle | packages/log/src/evidence.ts:80-101 | equal parsed contents come from bundles with equal records, up to the key order of payloads, and equal signers as maps |
| Evidence.EveryLineIsNeeded | packages/log/src/evidence.ts:105-122 | every proper subsequence of the file's lines is rejected |
| Evidence.CanonicalParserInverts | packages/log/src/evidence.ts:69-76 | a parser that reads canonical text back exists: the assumption on JSON.parse is satisfiable |
| Published.ContentsDecideTheReport | packages/log/src/verify.ts:326-360 | bundles that say the same get the same report, finding by finding, or both throw: key order never matters to an auditor |
| Published.HonestFilesVerify | packages/log/src/verify.ts:326-360 | whatever bundle an honest log's file parses to gets the report of the log itself: ok, or an exception exactly where a time goes back beyond the dates |
| Published.ExportIsSerializable | packages/log/src/evidence.ts:33-52 | an honest log has a file if and only if its counts and the times of its anchors are safe integers |
| Der.EncodeLength | packages/log/src/asn1.ts:37-48 | negative lengths are refused, the length-too-large check never fires, and the digits are those of the length modulo 2^32 |
| Der.LengthRoundTrip | packages/log/src/asn1.ts:37-48 | a length survives encoding if and only if it is below 2^32 |
| Der.FourGibibytesAnnounceNothing | packages/log/src/asn1.ts:37-48 | the length 2^32 is encoded as 81 00 and read back as 0 |
| Der.Decode | packages/log/src/asn1.ts:138-174 | the decoder with its error cases in order; it ends on every byte string |
| Der.DecodeSeq | packages/log/src/asn1.ts:176-185 | the loop decodes value after value to the end of the buffer |
| Der.DecodeEncoded | packages/log/src/asn1.ts:50-52 | a tree built with the encoders decodes to itself, at any offset and with anything around it, if and only if its tags are single-byte and tell containers from values and all contents are below 2^32 bytes |
| Der.DecodedTiles | packages/log/src/asn1.ts:138-185 | whatever decodes covers its bytes exactly, children tiling their parent's value from start to end |
| Der.DerInteger | packages/log/src/asn1.ts:58-71 | rejects what is not a safe natural number, otherwise minimal big-endian digits with a zero in front of a set high bit |
| Der.DerIntegerOfBytes | packages/log/src/asn1.ts:54-59 | a number given as bytes gets a zero in front of a set high bit |
| Der.DecodeInteger | packages/log/src/asn1.ts:206-214 | the accumulating loop with its tag and length checks |
| Der.IntegerRoundTrip | packages/log/src/asn1.ts:54-72 | decodeInteger inverts derInteger if and only if the value is below 2^47, and refuses the rest |
| Der.IntegerBytesRoundTrip | packages/log/src/asn1.ts:54-59 | a number given as bytes is read back if and only if it needs at most six with its padding |
| Der.TwoToThe47IsRefused | packages/log/src/asn1.ts:206-214 | 2^47 itself is refused |
| KnownAnswers.IntegerOf128 | packages/log/src/asn1.ts:54-72 | INTEGER 128 is 02 02 00 80 |
| KnownAnswers.Lengths | packages/log/src/asn1.ts:37-48 | the lengths 127, 200 and 1000 are 7f, 81 c8 and 82 03 e8 |
| Oids.DerOid | packages/log/src/asn1.ts:74-101 | dotted text to content: arc, count and prefix errors in order; otherwise the shared first byte of the rounded sum modulo 256 and base-128 arcs |
| Oids.EncodeArc | packages/log/src/asn1.ts:87-99 | the loop writes seven bits a byte with the high bit on all but the last |
| Oids.DecodeOid | packages/log/src/asn1.ts:187-204 | content to dotted text: the accumulating loop; an unfinished arc is an error only when it is not zero |
| Oids.OidRoundTrip | packages/log/src/asn1.ts:74-101 | an accepted text survives the trip if and only if its second arc is below 40 and its arcs are written in plain decimal |
| Oids.PlainTextWorks | packages/log/src/asn1.ts:75-79 | the assumptions on reading and showing numbers are satisfiable |
| Oids.SecondArcOf48 | packages/log/src/asn1.ts:74-101 | 2.48 is accepted and read back as 3.8 |
| KnownAnswers.OidOfRsa | packages/log/src/asn1.ts:74-101 | 1.2.840.113549 is 06 06 2a 86 48 86 f7 0d |
| Prng.DeterministicStream.NextByte | packages/centre/src/prng.ts:31-34 | the k-th byte drawn is byte k mod 64 of block k div 64, under any mix of calls |
| Prng.DeterministicStream.NextUint32 | packages/centre/src/prng.ts:36-40 | signed 32-bit shifts and a final unsigned shift give the next four bytes big-endian |
| Prng.DeterministicStream.NextBelow | packages/centre/src/prng.ts:48-56 | refuses n <= 0, consumes nothing for n = 1, otherwise the residue of the first accepted word; without a result exactly the words tried were all rejected |
| Prng.BoundedDrawsAreUniform | packages/centre/src/prng.ts:48-56 | for 1 < n <= 2^32 each residue comes from exactly floor(2^32/n) accepted words, and more than half of all words are accepted |
| Prng.NothingIsAccepted | packages/centre/src/prng.ts:51-55 | for n > 2^32 no word is ever accepted |
| Prng.DrawsAreDetermined | packages/centre/src/prng.ts:11-13 | a sequence of draws depends only on the seed and the position |
| Prng.DeterministicStream.Shuffle | packages/centre/src/prng.ts:59-66 | the copy is swapped in place by draws bounded n, n - 1, ..., 2, or a draw among them never ends |
| Prng.ShuffleIsABijection | packages/centre/src/prng.ts:59-66 | vectors of draws and permutations of a list without repetitions correspond one to one |
| Prng.DeterministicStream.Sample | packages/centre/src/prng.ts:69-81 | refuses k beyond the list, otherwise picks and removes k times from a copy, or a draw among them never ends |
| Prng.SampleIsABijection | packages/centre/src/prng.ts:69-81 | vectors of k draws and ordered k-selections correspond one to one |
| Prng.SelectionConserves | packages/centre/src/prng.ts:73-80 | what was selected and what was left over are together a permutation of the input |
| KnownAnswers.ShuffledThree | packages/centre/src/prng.ts:59-66 | which permutation of three items two draws give |
| KnownAnswers.SampledTwo | packages/centre/src/prng.ts:69-81 | which items two draws pick from three, and what is left |
| Authority.AuthorityService.ProvisionExam | packages/authority/src/provision.ts:60-107 | threshold, count and enrolment checks, then the paper and the answers bundle in that order; on success each opens under its own key and identity to the content of its kind |
| Authority.BuildStores | packages/authority/src/provision.ts:95-147 | a new bundle has a fresh key and opens under it, with its own identity, to its content |
| Authority.BuildLogsWhatItStores | packages/authority/src/provision.ts:122-172 | the bundle and then, if every share row was stored, its ceremony are logged with what was stored; a refusal changes nothing but the key counter |
| Authority.AuthorityService.BuildBundle | packages/authority/src/provision.ts:95-187 | one fresh key per bundle, encryption bound to the bundle's identity, split, bundle row, share rows and log entries in order |
| Authority.AuthorityService.Schedule | packages/authority/src/authority.ts:279-298 | the schedule is signed and stored for a known bundle and logged |
| Authority.AuthorityService.RecordDistribution | packages/authority/src/provision.ts:197-219 | unknown bundles and centres are refused, otherwise the distribution is stored and logged |
| Authority.AuthorityService.CheckCustodians | packages/authority/src/release.ts:199-211 | the loop with its set of seen custodians accepts exactly distinct enrolled ones |
| Authority.AuthorityService.Perform | packages/authority/src/release.ts:121-309 | refused as too early exactly when a verified schedule is not yet due, performed exactly when due, staffed, addressed and combining to the bundle's key, which then goes sealed to each recipient |
| Authority.OutcomeOfRelease | packages/authority/src/release.ts:121-262 | each answer to a release request exactly for its reason, and success exactly when the bundle is known, its row verified and due, enough distinct enrolled custodians submit, recipients are enrolled and the shares combine to its key |
| Authority.EffectOfRelease | packages/authority/src/release.ts:156-300 | what each kind of answer leaves in tables, log and record, and nothing else |
| Authority.QuorumReleases | packages/authority/src/release.ts:121-309 | a due request with a threshold of genuine shares of the bundle and enrolled recipients is never refused |
| Authority.OtherSteps | packages/authority/src/authority.ts:140-178 | enrolling a centre or a custodian and closing an exam change exactly their own table and log |
| Authority.AuthorityService.RecordReleases | packages/authority/src/store.ts:336-344 | for each centre the row of its last wrapped key wins, every named centre has one, and all other rows stay |
| Authority.EveryRecipientIsRecorded | packages/authority/src/release.ts:273-277 | after a release exactly the recipients have a new row, holding the bundle's key sealed to that centre's own public key |
| Authority.CombinedMeansQuorum | packages/authority/src/release.ts:245-249 | a reconstruction that matches the fingerprint used a threshold of distinct genuine shares of the bundle's own split |
| Authority.ScheduleIsDue | packages/authority/src/release.ts:148-190 | a release that passes the schedule check is at or after a moment that the authority signed for that bundle |
| Authority.ApplyKeepsInv | packages/authority/src/release.ts:121-309 | every step keeps bundles, schedules and the record of releases good, and takes nothing back |
| Centre.CentreNode.Receive | packages/centre/src/centre.ts:184-230 | hash, envelope and duplicate checks before a bundle is stored and logged |
| Centre.CentreNode.ReceiveKek | packages/centre/src/centre.ts:235-261 | a key of the wrong fingerprint is discarded again, a second key is refused, otherwise the key is held and logged |
| Centre.CentreNode.ReceiveMedium | packages/centre/src/centre.ts:264-280 | an unauthentic medium or one without an entry for this centre is refused, otherwise its first entry is received |
| Centre.CentreNode.Admit | packages/centre/src/centre.ts:284-339 | refused exactly for a token that is malformed, not signed by the authority, for another exam or centre, or expired; otherwise bound to its seat and logged unless token or seat is taken |
| Centre.CentreNode.Generate | packages/centre/src/centre.ts:343-417 | each refusal exactly for its reason; the paper is the rendering of the decrypted bundle for that seat and token, and row and log entry carry its hash |
| Centre.CentreNode.Print | packages/centre/src/centre.ts:419-453 | printed exactly when the bytes have the hash of the seat's logged paper and a printer takes them |
| Centre.CentreNode.Close | packages/centre/src/centre.ts:477-493 | the close is logged and no key remains |
| Centre.EveryRunIsGood | packages/centre/src/centre.ts:184-493 | in every run each token and seat checks in once and gets at most one paper, after its check-in and a key received since the last close; each printed hash was generated for that seat |
| Centre.OnePaperPerSeat | packages/centre/src/store.ts:66-83 | two PAPER_GENERATED entries never share a seat or a token |
| Centre.EveryEntryIsExplained | packages/centre/src/centre.ts:184-493 | in every run each log entry is explained by a step in the state it was taken in: good tokens only, boxes for this centre only, papers rendered from the decrypted bundle for that seat and token, and prints of exactly the logged bytes |
| Centre.RestartForgetsKeys | packages/centre/src/centre.ts:81-83 | a new process over the same tables and log holds no key |
| Protocol.NoPaperBeforeRelease | packages/authority/src/release.ts:121-309 | in every run of authority and centres, with schedule rows overwritten and any boxes and envelopes delivered: when a step generates a paper from an authority bundle, an earlier step released that bundle, at a time not before a moment signed for it by then, with at least its threshold of distinct custodians, all enrolled by then, and as many distinct shares of its split |
| Protocol.EveryRecordHappened | packages/authority/src/release.ts:230-300 | every recorded release was performed by a step of the run, and records what was signed and enrolled at that step |
| Protocol.ApplyKeepsInv | packages/centre/src/centre.ts:235-261 | centres hold, and signed media carry, only keys that were released or are foreign |
| Protocol.ReleasedKeyIsAccepted | packages/centre/src/centre.ts:235-261 | a box of a release opens at the centre it was sent to and gives the bundle's key |
| Protocol.ReleasedMediumIsAccepted | packages/centre/src/centre.ts:264-280 | so does the signed medium of an offline release |
| Protocol.ReleasedPaperIsTheProvisionedOne | packages/centre/src/centre.ts:365-392 | with the released key a seat's paper is the rendering of the content that was provisioned |
| HonestRun.SomeRunGeneratesAPaper | packages/authority/src/authority.ts:279-312 | the protocol model is not empty: the last step of an honest run generates a paper from an authority bundle |
| Audit.AuditSeats | packages/verifier/src/audit.ts:286-315 | the T7 loops pass exactly the logs in which the last check-in of every paper's token is at the paper's seat |
| Audit.IsBoundMeaning | packages/verifier/src/audit.ts:291-307 | a paper passes exactly when the last check-in of its token is at its seat |
| Audit.CentreRunsPassT7 | packages/verifier/src/audit.ts:288-315 | the log of every run of a centre passes T7 |
| Audit.AuditThresholds | packages/verifier/src/audit.ts:206-242 | the T9 loop judges each release by the first issuing ceremony and passes exactly when all are met |
| Audit.JudgeMeaning | packages/verifier/src/audit.ts:206-236 | what each verdict on a release says about the first ceremony in the log and the approving custodians |
| Audit.ProtocolRunsMeetThresholds | packages/verifier/src/audit.ts:223-236 | every release logged in a run is that of a step, is never found below the threshold, and is met in the final log if and only if before that step the bundle's ceremony was logged and named everyone who submitted |
| Audit.CeremonyIsLogged | packages/authority/src/provision.ts:118-172 | whatever follows, the ceremony that T9 finds for a provisioned exam names exactly its custodians; with one named twice there is none, although the bundle is stored |
| HonestRun.TwiceNamedHasNoCeremony | packages/authority/src/provision.ts:151-172 | provisioning with custodians a, b, a stores a paper bundle for which T9 never finds a ceremony |
| HonestRun.AuditFlagsAStranger | packages/verifier/src/audit.ts:223-236 | a run in which T9 flags a release: the custodian was enrolled but never issued a share |

## Left out

- libsodium: BLAKE2b, Ed25519, sealed boxes, XChaCha20-Poly1305 and Argon2id are parameters or ideal, as said above.
- Memory: zeroisation, secure allocation and the measurement of key lifetime; the budget is a refusal that may or may not happen.
- SQLite and JSON storage: tables are maps with their primary-key and uniqueness behaviour; a payload is kept as written instead of being stored and parsed again.
- UTF-8: texts are sequences of UTF-16 code units, so the conversion of lone surrogates to bytes is not modelled.
- Canonical.Canonicalize: an array with holes is not a value of the model. The code prints a hole as empty text, so an array of one hole prints like the empty array and the text no longer determines the value; storing a payload turns holes into nulls.
- JavaScript objects: records with a key such as `__proto__`, and lookups that find inherited properties, are read as plain finite maps.
- LogStore.EveryRunIsAChain: one actor and one signing key per log, and every signature that arrives verifies; a log reopened under another key is not modelled.
- LogVerify.VerifyEvidence: anchor tokens are not verified, as when no anchor back end is configured, and messages of findings are reduced to their codes.
- Evidence.ParseEvidence: a parsed value that no canonical text has, such as a fraction, is one opaque value; any parser is allowed that reads canonical text back.
- Der.Decode: the depth of recursion is not bounded.
- Oids.DerOid: `Number` on the text of an arc and the text of a number beyond 2^53 are parameters; on safe decimal numbers they are assumed to be inverse.
- Der: GeneralizedTime, and everything above the codec (timestamp requests, CMS, anchors).
- Prng.DeterministicStream.NextBelow: the loop has no bound; the model adds a number of words after which the caller stops looking, and bounds and counts are whole numbers.
- Prng.DeterministicStream.constructor: the check that the seed has 32 bytes; a stream is given by its blocks.
- KekEngines.KekEngine: encryption and decryption under a held key.
- Authority.AuthorityService.ProvisionExam: validation and splitting of the item bank; a bundle's content is opaque.
- Authority.AuthorityService.Perform: the row and the list of centres that the database returns are part of the request; recipients' public keys are always well-formed there, while KekEngines has the case that they are not.
- Authority: issuing admit tokens; a token is authentic or not. Times are whole numbers that canonical JSON accepts, and no log append fails.
- Centre.CentreNode: methods run to completion, including their log append, so a row whose append fails is not modelled; runT0 is a sequence of the modelled steps; a paper may be printed more than once, as in the code; a refusal of an expired token whose time cannot be shown as a date is a refusal like any other.
- Protocol.NoPaperBeforeRelease: rows other than schedules are not overwritten, custodians act only through a release, and a release at an asserted time is compared with that time instead of the clock.
- Audit: the other threats, and the texts of the evidence lines.
- packages/centre/src/assemble.ts and rendering are one opaque deterministic function that may fail.
- packages/kms-pkcs11, packages/kms-vault and packages/ca wrap foreign libraries; servers, sync clients, daemons, command lines, metrics and health checks are plumbing.
