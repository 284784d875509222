# Verification of seven components

This project models, in Dafny, the parts of a coursework and GnuPG source tree whose correctness is
hardest to see from the code, and proves what they are for.

* **PKCS#12** (`Der`, `Pkcs12`, `MiniP12`, `Pkcs12RoundTrip`, `Pkcs12Format`, `Pkcs12Files`,
  `Pkcs12Indefinite`, `Pkcs12Refusals`, `DerReading`): the printer and parser of minip12.c, which nest about
  ten DER layers with lengths computed in advance and walk them back. `Pkcs12` specifies the file as nested
  objects and the parser as functions on what is left of the buffer; `MiniP12` holds the loops and buffers,
  proved against that; `Pkcs12RoundTrip` proves that parsing undoes building, `Pkcs12Format` that what is
  built is a file of the standard, and the others say what the parser makes of files of any maker.
* **Key protection** (`CanonicalSexp`, `S2k`, `KeyProtection`, `ProtectRoundTrip`, `ProtectFormat`, `ProtectTrees`,
  `AgentProtect`):
  agent_protect cuts the secret parameters out of a canonical S-expression, appends an integrity
  code, encrypts, and splices in a time stamp; agent_unprotect reverses it. `ProtectFormat` describes
  protected keys as S-expressions, and `ProtectTrees` decides for every canonical S-expression what the two
  functions return.
* **Barriers** (`Powers`, `MessagePassing`, `Dissemination`, `Tournament`): processes are straight-line
  programs of sends and receives over FIFO channels; both MPI barriers are instances, for any number
  of processes and of consecutive barriers.
* **Recoverable virtual memory** (`RedoLog`, `Images`, `Rvm`, `RvmTransactions`, `RvmCommit`, `RvmLibrary`): memory, segment files, redo
  logs as text, and an undo list, with crashes between and inside of calls as steps.
* **Base64 armor** (`Crc24`, `Crc24Reference`, `Base64`, `Base64Format`, `Base64Reading`, `Base64Streams`): the
  chunked encoder and the in-place decoder, and what they write and read in the words of the standards.
* **Passphrase cache** (`PassphraseCache`, `CacheContract`, `CacheList`): lock counts, two expiry clocks, flush marking
  and several items per key.
* **User-level threads** (`RoundRobin`, `ForkOrder`): the round-robin scheduler, the spinning mutex and
  the philosophers.

`Wrappers`, `Octets`, `Decimals` and `Buffers` are shared helpers. Where the source changes state step by
step, the model does: classes with fields, arrays filled in place, loops with invariants, each proved
against a specification function about which the properties are then proved.

Some properties one might expect do not hold of the code, and the project says exactly when they do:

* a modulus written as a single zero octet is dropped by the PKCS#12 parser (`ExactRoundTrip`,
  `ZeroModulusIsDropped`), and a file whose contents reach 65536 octets
  is lost (`SizeDecides`);
* a bag that the PKCS#12 parser passes over makes it miss the next one (`AfterSkipped`), and in a file of
  indefinite lengths nothing is read behind encrypted data (`ItemsBagIsLast`);
* the Base64 decoder does not see a begin line behind a blank line (`BeginSeenIff`);
* a log payload that starts with white space is not scanned back (`ScanPrinted`, `CommitScansIff`,
  `BlankCommitIsLost`);
* a crash between the records of a commit can leave half of it (`AtomicIff`, `TwoRegionsTear`);
* abort does not bring back what was written before the last declaration (`RestoresIff`,
  `RedeclaringKeepsWrite`);
* data put into the cache can be displaced by older data whose handle is released (`ReleaseDecides`,
  `ReleaseBringsBackOldData`), and a flush does not hide locked data (`FlushHidesUnlocked`).

Foreign functions are parameters, with the few laws that are needed of them collected in a predicate
`Lawful`; `LawsAreConsistent` shows that these laws can be met.

Check with `dafny verify dfyconfig.toml`.

## Model

| member | source | states |
|---|---|---|
| `Pkcs12RoundTrip.RoundTrip` | cns/gnupg-2.0.22/agent/minip12.c:1278-1452 | For any parameters, any certificate, either or both missing, and any random salts: whatever p12_build returns (no encoded length reaching 65536), p12_parse with the same password hands back exactly that certificate once and returns the parameters in order, without leading ones that are written as a single zero octet. |
| `Pkcs12RoundTrip.ExactRoundTrip` | cns/gnupg-2.0.22/agent/minip12.c:2144-2279 | The eight parameters come back unchanged if and only if the modulus is not written as a single zero octet (the parser ignores a leading zero). |
| `Pkcs12RoundTrip.SizeDecides` | cns/gnupg-2.0.22/agent/minip12.c:1456-1497 | The limit is exact: a built key or certificate comes back if and only if the contents of the outermost sequence are shorter than 65536 octets; otherwise the parser returns nothing. |
| `Pkcs12RoundTrip.ZeroModulusIsDropped` | cns/gnupg-2.0.22/agent/minip12.c:1229-1243 | A concrete file whose modulus is dropped. |
| `Pkcs12RoundTrip.AllKept` | cns/gnupg-2.0.22/agent/minip12.c:1229-1243 | The rule "ignore the very first one if it is a 0" drops nothing exactly if the first parameter is not written as one zero octet. |
| `Pkcs12RoundTrip.AllBagsRead` | cns/gnupg-2.0.22/agent/minip12.c:1345-1434 | The loop over the bags of a built file, for all four combinations of certificate and key, ends with success and the expected result. |
| `Pkcs12RoundTrip.BagPassed` | cns/gnupg-2.0.22/agent/minip12.c:1345-1434 | One pass of that loop over a bag whose contents can be read moves exactly behind the bag and charges exactly its size to the remaining length. |
| `Pkcs12RoundTrip.CertAndKey` | cns/gnupg-2.0.22/agent/minip12.c:1345-1434 | A certificate bag followed by a key bag and the MAC: both bags are read, and the octets of the MAC are not looked at. |
| `Pkcs12RoundTrip.EncryptedBagRead` | cns/gnupg-2.0.22/agent/minip12.c:632-750 | parse_bag_encrypted_data finds in a bag of build_cert_bag the cipher, the salt, 2048 iterations and the whole encrypted text. |
| `Pkcs12RoundTrip.CertSequenceRead` | cns/gnupg-2.0.22/agent/minip12.c:752-975 | The certificate loop on the output of build_cert_sequence reports the certificate exactly once, passes over the attributes and takes the 1 to 8 octets of padding for the end. |
| `Pkcs12RoundTrip.CertItemRead` | cns/gnupg-2.0.22/agent/minip12.c:779-946 | A certificate bag item is recognised as such, not as a CRL or key bag, and its octet string is handed back whole. |
| `Pkcs12RoundTrip.AttributesPassed` | cns/gnupg-2.0.22/agent/minip12.c:948-974 | The SET of bag attributes is skipped and what is left behind it, at most 8 octets, is dropped. |
| `Pkcs12RoundTrip.KeyBagRead` | cns/gnupg-2.0.22/agent/minip12.c:1060-1173 | parse_bag_data finds in a bag of build_key_bag the salt, 2048 iterations and the whole encrypted key, with or without attributes. |
| `Pkcs12RoundTrip.KeyRead` | cns/gnupg-2.0.22/agent/minip12.c:1175-1248 | The output of build_key_sequence, with any padding behind it, is accepted by bag_data_p and read back to the parameters kept. |
| `Pkcs12RoundTrip.KeyIntegersRead` | cns/gnupg-2.0.22/agent/minip12.c:1218-1248 | The loop over the INTEGERs uses up the announced length exactly, never hits the limit of nine, and returns the parameters in order. |
| `Pkcs12RoundTrip.Decoded` | cns/gnupg-2.0.22/agent/minip12.c:496-574 | decrypt_block stops at the first, unconverted password when the decrypted text passes the check, and gives back the plaintext. |
| `Pkcs12RoundTrip.FileRead` | cns/gnupg-2.0.22/agent/minip12.c:1292-1344 | The head of a built file leads to the sequence of bags, with its length and not of indefinite length. |
| `Pkcs12RoundTrip.AlgorithmIdIsDer` | cns/gnupg-2.0.22/agent/minip12.c:112-124 | The two algorithm identifier templates with a salt put in are well-formed nested DER objects. |
| `Pkcs12RoundTrip.AttributesAreSet` | cns/gnupg-2.0.22/agent/minip12.c:137-153 | The attribute template with key id and hash is one SET of exactly 124 octets. |
| `Pkcs12Files.ContentsRead` | cns/gnupg-2.0.22/agent/minip12.c:752-975 | Every nonempty list of items (certificates, revocation lists and plain keys, each with or without a SET of attributes) with up to 8 octets behind it: every certificate is handed back, in order and once; revocation lists are passed over; the first key is kept if one is wanted. Stated with the nested objects and the list, not with the functions of the loop. |
| `Pkcs12Files.EntryRead` | cns/gnupg-2.0.22/agent/minip12.c:770-955 | Each kind of item is told by its identifier and read up to its last octet, whatever follows it. |
| `Pkcs12Files.FileMeans` | cns/gnupg-2.0.22/agent/minip12.c:1278-1452 | Files of any maker: any number of bags, each with any items or an encrypted key, either cipher, any salt of 8 to 20 octets, any iteration count, octet strings in one piece or in chunks. All certificates come back in order and the first key is returned, provided that no bag with a key follows a key. |
| `Pkcs12Files.ItemsFound` | cns/gnupg-2.0.22/agent/minip12.c:608-1008 | The same for one bag with encrypted data, behind which anything may stand. |
| `Pkcs12Files.KeyFound` | cns/gnupg-2.0.22/agent/minip12.c:1039-1268 | The same for one bag with an encrypted key, in one piece or in chunks, with any attributes. |
| `Pkcs12Files.AlgorithmJudged` | cns/gnupg-2.0.22/agent/minip12.c:661-716 | For any identifier, salt and count: exactly RC2 and triple DES with a salt of 8 to 20 octets and a count of at least one octet are accepted, and the salt and count found are those written. |
| `Pkcs12Files.IterationsAre` | cns/gnupg-2.0.22/agent/minip12.c:706-711 | The iteration count is the big-endian number of all its octets, modulo 2^32. |
| `Pkcs12Files.ChunksRead` | cns/gnupg-2.0.22/agent/minip12.c:276-319 | Any list of chunks up to a null tag comes back joined, with the position behind the null tag. |
| `Pkcs12Files.ChunkedCipherRead` | cns/gnupg-2.0.22/agent/minip12.c:715-733 | Encrypted octets in chunks. |
| `Pkcs12Files.ChunkedWrappedRead` | cns/gnupg-2.0.22/agent/minip12.c:1061-1083 | The octet string around bags in chunks. |
| `Pkcs12Files.DecodeMeans` | cns/gnupg-2.0.22/agent/minip12.c:496-574 | decrypt_block returns the text of the first of the sixteen character sets that gives a plausible one, and if none does, of the last one that the password can be converted to; passwords over 31 octets give zeros. |
| `Pkcs12Files.AfterSkipped` | cns/gnupg-2.0.22/agent/minip12.c:1395-1420 | A bag that is passed over (of another kind, or with a key where there is one already) moves the position nine octets too far: the loop goes on there, and fails if there are fewer than nine octets. |
| `Pkcs12Files.PassedOver` | cns/gnupg-2.0.22/agent/minip12.c:1375-1418 | A bag is passed over if and only if it is neither encrypted data nor plain data while no key has been found. |
| `Pkcs12Indefinite.OpenFileRead` | cns/gnupg-2.0.22/agent/minip12.c:1292-1344 | The head of a file of indefinite lengths leads to its bags. |
| `Pkcs12Indefinite.KeyBagPassed` | cns/gnupg-2.0.22/agent/minip12.c:1345-1434 | In a sequence of indefinite length, a bag with a key is read and passed exactly. |
| `Pkcs12Indefinite.ItemsBagIsLast` | cns/gnupg-2.0.22/agent/minip12.c:1345-1434 | A bag with encrypted data is read, but one of its own null tags is taken for the end of the bags: nothing of what follows it is returned. |
| `Pkcs12Indefinite.OpenItemsRead` | cns/gnupg-2.0.22/agent/minip12.c:608-1008 | The bag of indefinite lengths is read, and the number of octets consumed is that up to the null tag behind the chunks. |
| `Pkcs12Refusals.FileJudged` | cns/gnupg-2.0.22/agent/minip12.c:1292-1316 | For any version and identifier in the head: exactly version 3 and plain data are accepted. |
| `Pkcs12Refusals.FileRefused` | cns/gnupg-2.0.22/agent/minip12.c:1292-1316 | Any other file gives neither a key nor a certificate. |
| `Pkcs12Refusals.EncryptedJudged` | cns/gnupg-2.0.22/agent/minip12.c:632-659 | In a bag with encrypted data, exactly version 0 and plain data are accepted. |
| `Pkcs12Refusals.OtherBagRefused` | cns/gnupg-2.0.22/agent/minip12.c:1084-1103 | In a bag with plain data, anything but an encrypted key is refused. |
| `Pkcs12Refusals.OtherCipherRefused` | cns/gnupg-2.0.22/agent/minip12.c:1113-1126 | An encrypted key in such a bag is refused if the cipher is not triple DES. |
| `Pkcs12Refusals.OtherItemRefused` | cns/gnupg-2.0.22/agent/minip12.c:778-811 | Items that are neither certificates nor revocation lists nor keys are refused. |
| `Pkcs12Refusals.OtherCertRefused` | cns/gnupg-2.0.22/agent/minip12.c:912-928 | Certificates of another type than X.509 are refused. |
| `Pkcs12Refusals.OtherKeyRefused` | cns/gnupg-2.0.22/agent/minip12.c:1175-1196 | Keys of another version than 0 or for another algorithm than RSA are refused. |
| `Pkcs12Refusals.IntegersJudged` | cns/gnupg-2.0.22/agent/minip12.c:1218-1248 | Any number of parameters: they are read if and only if at most nine are left once leading ones written as a single zero are dropped. |
| `Pkcs12Refusals.OtherFirstRefused` | cns/gnupg-2.0.22/agent/minip12.c:752-777 | A bag whose first item is not a sequence is refused. |
| `Pkcs12Refusals.OpenCertRefused` | cns/gnupg-2.0.22/agent/minip12.c:932-938 | A certificate of indefinite length is refused. |
| `Pkcs12Refusals.TrailerJudged` | cns/gnupg-2.0.22/agent/minip12.c:956-972 | Behind the last item of a bag up to eight octets are taken for padding; of more there has to be a tag, and else the bag fails with its certificates handed back. |
| `Pkcs12Refusals.KeyBagFails` | cns/gnupg-2.0.22/agent/minip12.c:1395-1412 | A bag with plain data that holds no readable key ends the parse without a key. |
| `Pkcs12Refusals.ItemsBagFails` | cns/gnupg-2.0.22/agent/minip12.c:1384-1394 | An error in encrypted data ends the parse: the certificates in front of it have been handed back, and a key found before is dropped. |
| `Pkcs12Format.BuildIsPfx` | cns/gnupg-2.0.22/agent/minip12.c:2144-2279 | What p12_build returns is a file as section 4 of RFC 7292 describes it, written down here with identifiers given by their arcs: a certificate bag in encrypted data (RC2), a key as section 5 of RFC 5208 describes it in a shrouded key bag (triple DES), 2048 iterations, padding octets that hold their number, and a digest over exactly the contents of the file. |
| `Pkcs12Format.BuildFails` | cns/gnupg-2.0.22/agent/minip12.c:2144-2279 | It fails if and only if the password has more than 31 octets, or there is a key without exactly eight parameters or with contents of 65536 octets or more. |
| `Pkcs12Format.EncodableIff` | cns/gnupg-2.0.22/agent/minip12.c:1683-1740 | The five size tests of build_key_sequence come to one: the contents of the key are shorter than 65536 octets. |
| `Pkcs12Format.OidsAre` | cns/gnupg-2.0.22/agent/minip12.c:87-109 | The identifiers of data, encrypted data and RSA are the encodings of their arcs (section 8.19 of X.690). |
| `Pkcs12Format.BagOidsAre` | cns/gnupg-2.0.22/agent/minip12.c:91-98 | The same for the four kinds of bags. |
| `Pkcs12Format.CipherOidsAre` | cns/gnupg-2.0.22/agent/minip12.c:100-105 | The same for the two ciphers and for X.509 certificates. |
| `Pkcs12Format.AttributesAre` | cns/gnupg-2.0.22/agent/minip12.c:137-152 | The template with the key id and the hash is the DER of two attributes: a friendlyName "GnuPG exported certificate " with the last four octets of the hash in hexadecimal, and a localKeyId with the hash. |
| `Pkcs12Format.MacDataIs` | cns/gnupg-2.0.22/agent/minip12.c:125-135 | The template with hash and salt is the DER of a MacData with SHA-1 and 2048 iterations. |
| `Der.HeaderReads` | cns/gnupg-2.0.22/agent/minip12.c:176-252 | parse_tag reads back what store_tag_length writes, for every length below 65536 and every low tag number: class, form, number, length and header size. |
| `Der.HeaderLength` | cns/gnupg-2.0.22/agent/minip12.c:1456-1497 | store_tag_length writes exactly compute_tag_length octets, if and only if the length is below 65536. |
| `Der.TlvReads` | cns/gnupg-2.0.22/agent/minip12.c:176-252 | The same for a whole object with anything behind it. |
| `DerReading.LengthJudged` | cns/gnupg-2.0.22/agent/minip12.c:212-236 | The length part of any header: short, indefinite, the reserved form, and any number of length octets, read as a big-endian number modulo 2^64, or missing. |
| `DerReading.ShortTagJudged` | cns/gnupg-2.0.22/agent/minip12.c:176-252 | parse_tag on an identifier of one octet and any length part: class, form, number, length and header size, and the test that the contents are there. |
| `DerReading.LongTagJudged` | cns/gnupg-2.0.22/agent/minip12.c:176-252 | The same for tag numbers above 30, read in septets modulo 2^64. |
| `MiniP12.ReadTag` | cns/gnupg-2.0.22/agent/minip12.c:176-252 | The loops of parse_tag (long tag numbers, length octets, both with 64-bit wrap-around) compute the specified tag and position or fail. |
| `MiniP12.StoreTagLength` | cns/gnupg-2.0.22/agent/minip12.c:1475-1497 | The header is stored behind what the buffer already holds, in exactly the computed number of octets. |
| `MiniP12.BuildKeySequence` | cns/gnupg-2.0.22/agent/minip12.c:1674-1791 | With sizes computed before anything is written, the buffer is filled exactly with the nested DER of the key and padded to a multiple of 8 with 1 to 8 octets; nothing is returned exactly when there are not eight parameters or some length reaches 65536. |
| `MiniP12.MeasureIntegers` | cns/gnupg-2.0.22/agent/minip12.c:1683-1704 | The first loop computes the size of all INTEGERs, or fails exactly if one is too large. |
| `MiniP12.StoreIntegers` | cns/gnupg-2.0.22/agent/minip12.c:1757-1780 | The second loop writes the INTEGERs one behind the other into exactly that space. |
| `MiniP12.BuildKeyBag` | cns/gnupg-2.0.22/agent/minip12.c:1795-1921 | The precomputed sizes of all eleven steps are right: the buffer is filled exactly and holds the nested bag, with or without attributes. |
| `MiniP12.BuildCertBag` | cns/gnupg-2.0.22/agent/minip12.c:1924-2020 | The same for the nine steps of the certificate bag. |
| `MiniP12.BuildCertSequence` | cns/gnupg-2.0.22/agent/minip12.c:2023-2136 | The same for the eight steps of the certificate sequence, with attributes and padding. |
| `MiniP12.StoreAttributes` | cns/gnupg-2.0.22/agent/minip12.c:1900-1911 | The template, the eight key id characters put in two octets apart, and the hash. |
| `MiniP12.StorePadding` | cns/gnupg-2.0.22/agent/minip12.c:1784-1788 | 1 to 8 octets, each holding their number, up to a multiple of 8. |
| `MiniP12.CreateFinal` | cns/gnupg-2.0.22/agent/minip12.c:1503-1647 | The file is the nested DER around all buffers, filled exactly, and the MAC is computed over the innermost sequence; fails exactly if the password has more than 31 octets. |
| `MiniP12.Build` | cns/gnupg-2.0.22/agent/minip12.c:2144-2279 | p12_build computes the specified file or fails where the specification does. |
| `MiniP12.CramOctetString` | cns/gnupg-2.0.22/agent/minip12.c:276-319 | The loop joins the chunks of an octet string up to the null tag. |
| `MiniP12.DecryptBlock` | cns/gnupg-2.0.22/agent/minip12.c:496-574 | The loop over the character sets stops at the first plausible plaintext and otherwise leaves the last one. |
| `MiniP12.ReadParameters` | cns/gnupg-2.0.22/agent/minip12.c:1218-1248 | The loop over the key parameters refines its recursive specification. |
| `MiniP12.ReadAllItems` | cns/gnupg-2.0.22/agent/minip12.c:770-975 | The loop over the items of a bag computes the specified result, certificates handed back before an error included; what that is for lists of items of any length says `Pkcs12Files.ContentsRead`. |
| `MiniP12.ReadAllBags` | cns/gnupg-2.0.22/agent/minip12.c:1345-1434 | The loop over the bags refines its recursive specification, with the branches that skip a bag as they are in the code. |
| `MiniP12.ReadPrivateKey` | cns/gnupg-2.0.22/agent/minip12.c:1175-1248 | The decrypted key is read through the tag walk and the parameter loop as specified. |
| `MiniP12.ParseBagEncryptedData` | cns/gnupg-2.0.22/agent/minip12.c:608-1008 | parse_bag_encrypted_data, made of the tag, chunk, character-set and item loops, computes the specified bag; what that is says `Pkcs12Files.ItemsFound`, and what is refused `Pkcs12Refusals.EncryptedJudged`. |
| `MiniP12.ParseBagData` | cns/gnupg-2.0.22/agent/minip12.c:1039-1268 | parse_bag_data, made of the same loops, computes the specified key and number of octets consumed. |
| `MiniP12.FindBags` | cns/gnupg-2.0.22/agent/minip12.c:1292-1344 | The head of the file, with the chunk loop, computes the specified position, length and form of the bag sequence. |
| `MiniP12.Parse` | cns/gnupg-2.0.22/agent/minip12.c:1278-1452 | p12_parse, made of all these, computes the specified result; what that is says `Pkcs12Files.FileMeans`. |
| `ProtectRoundTrip.RoundTrip` | cns/gnupg-2.0.22/agent/protect.c:791-986 | For every well-formed clear key of a listed algorithm, the "curve" variant and trailing lists included, and whatever follows it in memory: agent_protect succeeds, and agent_unprotect with the same passphrase gives back the original bytes and, if asked, the time stamp. |
| `ProtectRoundTrip.OnlyChecked` | cns/gnupg-2.0.22/agent/protect.c:956-985 | For every input: where agent_unprotect returns a key, the way it took through the protected list, the decrypted cleartext and merge_lists is given, the integrity code read in that cleartext equals the one recomputed over that merged list, and the key is that list with the time stamp cut out. |
| `ProtectRoundTrip.CheckDecides` | cns/gnupg-2.0.22/agent/protect.c:966-977 | Once such a way exists, a key is returned if and only if the two codes agree; if both exist and differ, the error is "corrupted protection". |
| `ProtectRoundTrip.ProtectResult` | cns/gnupg-2.0.22/agent/protect.c:404-559 | The exact text that agent_protect returns for a well-formed key: public part unchanged, the protected list in place of the secret parameters, the time stamp behind it, the rest unchanged. |
| `ProtectFormat.ProtectWrites` | cns/gnupg-2.0.22/agent/protect.c:269-559 | The result as an S-expression: the public parameters and all other lists stay; the protected list holds salt, count, vector and `encrypt(key, iv, plain)`, where plain is the list of the secret parameters with the SHA-1 of the list of all parameters and the time stamp, filled up with 1 to 16 random bytes to whole blocks, and the key is derived from the given passphrase. |
| `ProtectFormat.SessionKeyIs` | cns/gnupg-2.0.22/agent/protect.c:1025-1095 | The key, and no other, is the first 16 bytes of the SHA-1 of the salt and the passphrase over and over: as many bytes as the count says, but both at least once. |
| `ProtectFormat.WrongPassphrase` | cns/gnupg-2.0.22/agent/protect.c:593-632 | With a passphrase that derives a key under which the data does not decrypt to something that starts like a list, agent_unprotect returns the error for a bad passphrase. |
| `ProtectFormat.OpensIff` | cns/gnupg-2.0.22/agent/protect.c:791-986 | What decrypts to secret parameters and a digest is opened if and only if the digest is that of the list of all parameters and the time stamp; the time stamp may be missing, and is cut out otherwise. Else the error is that for corrupted protection. |
| `ProtectFormat.TamperedKey` | cns/gnupg-2.0.22/agent/protect.c:791-986 | A protected key in which public parameters, the time stamp or other lists are exchanged is opened if and only if the digest stays the same. |
| `ProtectFormat.Refused` | cns/gnupg-2.0.22/agent/protect.c:809-961 | The errors up to the decryption, for any atoms in the protected list: time stamp length, mode, hash name, salt length, count, vector length, data length, and decrypted text that is no list ending in the last block. |
| `ProtectFormat.SealParsed` | cns/gnupg-2.0.22/agent/protect.c:891-956 | The verdict on a protected list is a function of its six atoms. |
| `ProtectFormat.CountDecides` | cns/gnupg-2.0.22/agent/protect.c:932-947 | A count is accepted if and only if it is 65536 or more, or a one-byte number of section 3.7.1.3 of RFC 4880 of 96 or more, which stands for (16 + low bits) * 2^(high bits + 6). |
| `ProtectTrees.ProtectTotal` | cns/gnupg-2.0.22/agent/protect.c:404-502 | agent_protect on every canonical S-expression, whatever its shape: it succeeds if and only if the expression is a clear key of a listed algorithm; otherwise the error is that of the head (invalid or unknown expression, unsupported algorithm), and else invalid expression. |
| `ProtectTrees.WellFormedIff` | cns/gnupg-2.0.22/agent/protect.c:50-63 | Which keys these are, written out: the readable and the secret parameters of rsa, dsa, elg, ecdsa, ecdh and ecc, and those of the curve variant. |
| `ProtectTrees.UnprotectDecides` | cns/gnupg-2.0.22/agent/protect.c:791-986 | agent_unprotect on every canonical key whose data decrypts to a list of items with a digest: it returns the key if and only if all items are names with values and the digest is that of all of them, with the time stamp taken out if it comes first behind the protected list; else invalid expression or corrupted protection. |
| `ProtectTrees.UnprotectRefuses` | cns/gnupg-2.0.22/agent/protect.c:836-961 | The errors before that, for any items: those of the time stamp, no protected list, the verdict on the protected list, the decryption. |
| `ProtectTrees.UnprotectHead` | cns/gnupg-2.0.22/agent/protect.c:809-832 | A head that is wrong gives its error. |
| `ProtectTrees.TreeParsed` | cns/gnupg-2.0.22/agent/protect.c:891-956 | The verdict on a protected list with any items of any shape. |
| `ProtectTrees.WhereFound` | cns/gnupg-2.0.22/agent/protect.c:872-889 | The protected list is found behind any lists that have a name, and behind nothing else. |
| `ProtectTrees.StampFound` | cns/gnupg-2.0.22/agent/protect.c:838-864 | The first time stamp is found, of whatever length, behind any lists that have a name. |
| `ProtectTrees.PairsDecide` | cns/gnupg-2.0.22/agent/protect.c:222-240 | The pair loops come to the end of a list exactly if all its items are a name with a value. |
| `ProtectRoundTrip.ClearParsed` | cns/gnupg-2.0.22/agent/protect.c:428-507 | Parsing a well-formed key finds the first secret parameter, the end of the last one, the hashed range and the end of the key. |
| `ProtectRoundTrip.ParamsScanned` | cns/gnupg-2.0.22/agent/protect.c:457-497 | The loop over the parameters, for every row of the table and for the curve variant that changes the parameter list on the way. |
| `ProtectRoundTrip.HashedText` | cns/gnupg-2.0.22/agent/protect.c:509-519 | What agent_protect hashes is the algorithm list with the time stamp as one more parameter. |
| `ProtectRoundTrip.PaddingFits` | cns/gnupg-2.0.22/agent/protect.c:300-302 | The encrypted length is a multiple of 16 that covers the whole list and at most one block of padding, and the buffer length is exact. |
| `ProtectRoundTrip.DecryptedBack` | cns/gnupg-2.0.22/agent/protect.c:564-631 | Decrypting gives back the list with part of the padding; neither the quick check nor the padding-length test rejects it. |
| `ProtectRoundTrip.MergedBack` | cns/gnupg-2.0.22/agent/protect.c:641-783 | merge_lists puts the secret parameters back in their place, finds the integrity code and the position and length of the time stamp. |
| `ProtectRoundTrip.MergedFits` | cns/gnupg-2.0.22/agent/protect.c:662-673 | The buffer that merge_lists allocates, the two list lengths added, is large enough. |
| `ProtectRoundTrip.MicOfStamped` | cns/gnupg-2.0.22/agent/protect.c:198-256 | calculate_mic over the merged list hashes the same text that agent_protect hashed. |
| `ProtectRoundTrip.Finished` | cns/gnupg-2.0.22/agent/protect.c:966-985 | The integrity check passes and cutting out the time stamp leaves the original key. |
| `ProtectRoundTrip.ListsFound` | cns/gnupg-2.0.22/agent/protect.c:836-889 | The protected list and the time stamp are found behind any well-formed public parameters. |
| `ProtectRoundTrip.ProtectionRead` | cns/gnupg-2.0.22/agent/protect.c:890-948 | Salt, iteration count, initialisation vector and encrypted data are read back as do_encryption printed them. |
| `CanonicalSexp.NetParts` | cns/gnupg-2.0.22/common/sexp-parse.h:28-41 | snext reads back the length of every nonempty atom and points to its first byte. |
| `CanonicalSexp.SkipText` | cns/gnupg-2.0.22/common/sexp-parse.h:49-80 | sskip passes over exactly one S-expression of any shape, at any depth. |
| `CanonicalSexp.ListIsCanonical` | cns/gnupg-2.0.22/common/sexp-parse.h:49-80 | From inside a list, sskip stops exactly behind it. |
| `AgentProtect.ReadLength` | cns/gnupg-2.0.22/common/sexp-parse.h:28-41 | The digit loop of snext computes the specified length and position, 0 on error. |
| `AgentProtect.SkipLists` | cns/gnupg-2.0.22/common/sexp-parse.h:49-80 | The loop of sskip refines its recursive specification. |
| `AgentProtect.ReadParams` | cns/gnupg-2.0.22/agent/protect.c:457-497 | The parameter loop of agent_protect refines its recursive specification. |
| `AgentProtect.PassPairs` | cns/gnupg-2.0.22/agent/protect.c:222-238 | The loop over name and value pairs refines its recursive specification. |
| `AgentProtect.LocateProtected` | cns/gnupg-2.0.22/agent/protect.c:872-889 | The search for the protected list refines its recursive specification. |
| `AgentProtect.LocateTimestamp` | cns/gnupg-2.0.22/agent/protect.c:838-864 | The search for the time stamp refines its recursive specification, its length check included. |
| `AgentProtect.FillPlaintext` | cns/gnupg-2.0.22/agent/protect.c:336-353 | The plaintext buffer has exactly the computed length and holds list, integrity code and padding. |
| `AgentProtect.BuildProtected` | cns/gnupg-2.0.22/agent/protect.c:509-558 | The result buffer has exactly the computed length. |
| `AgentProtect.Protect` | cns/gnupg-2.0.22/agent/protect.c:404-559 | agent_protect computes the specified text or error; what that is say `ProtectFormat.ProtectWrites` and `ProtectTrees.ProtectTotal`. |
| `AgentProtect.MergeLists` | cns/gnupg-2.0.22/agent/protect.c:641-783 | merge_lists computes the specified list, integrity code, cut position and length, or error. |
| `AgentProtect.CalculateMic` | cns/gnupg-2.0.22/agent/protect.c:198-256 | calculate_mic computes the specified hash or error. |
| `AgentProtect.Unprotect` | cns/gnupg-2.0.22/agent/protect.c:791-986 | agent_unprotect computes the specified result or error; what that is say `ProtectTrees.UnprotectDecides`, `ProtectTrees.UnprotectRefuses` and `ProtectFormat.WrongPassphrase`. |
| `S2k.WriteSalted` | cns/gnupg-2.0.22/agent/protect.c:1068-1082 | The bytes hashed are exactly the first `total` bytes of the endlessly repeated salt and passphrase. |
| `S2k.WritePass` | cns/gnupg-2.0.22/agent/protect.c:1047-1086 | Each pass hashes as many zeros as its number and then, in mode 3, the first max(count, 8 + passphrase length) bytes of that repetition; salt and passphrase once in mode 1, the passphrase in mode 0 (section 3.7.1 of RFC 4880). |
| `S2k.HashPassphrase` | cns/gnupg-2.0.22/agent/protect.c:1025-1095 | The key buffer is filled exactly: byte j is byte j mod d of the digest of pass j / d; fails exactly for a bad mode, an empty buffer or a missing salt, and then leaves the buffer alone. |
| `S2k.KeyIsDigests` | cns/gnupg-2.0.22/agent/protect.c:1025-1095 | A key of any length is the start of the digests of enough passes, each hashing one more zero byte in front of the same text. |
| `S2k.Texts` | cns/gnupg-2.0.22/agent/protect.c:1052-1085 | That text is the passphrase in mode 0, salt and passphrase in mode 1, and the same in mode 3 for counts up to their length. |
| `Dissemination.Safety` | aos/mpi/MPI/diss.c:20-44 | In every run, for any number of processes and of consecutive barriers: no process has left barrier e before every process has entered it. |
| `Dissemination.Heard` | aos/mpi/MPI/diss.c:27-43 | After round k a process has heard, directly or indirectly, from its 2^(k+1) cyclic predecessors including itself. |
| `Dissemination.DestSrc` | aos/mpi/MPI/diss.c:30-31 | The destination and source of a round are inverse to each other on the ring. |
| `Dissemination.BarrierWellFormed` | aos/mpi/MPI/diss.c:27-43 | Every send has its receive and the rounds order all actions. |
| `Dissemination.InStep` | aos/mpi/MPI/diss.c:57-60 | Completed-barrier counts never differ by more than one. |
| `Dissemination.Completes` | aos/mpi/MPI/diss.c:57-60 | In every reachable state where some process is unfinished a step is enabled, runs are bounded in length, at the end no message is left in any channel, and every run can be continued to the end, which all complete runs reach after the same number of steps. |
| `Tournament.Safety` | aos/mpi/MPI/tourn.c:20-64 | In every run, for any number of processes and of barriers: no process has returned from barrier e before all have called it. |
| `Tournament.Arrived` | aos/mpi/MPI/tourn.c:35-52 | A winner past round r implies that every id in [id, min(id + 2^r, n)) has arrived, byes included. |
| `Tournament.WokenAfterAll` | aos/mpi/MPI/tourn.c:48-62 | A process woken by its winner has been preceded by the arrival of all. |
| `Tournament.LosesOnce` | aos/mpi/MPI/tourn.c:35-36 | Each nonzero id loses in exactly one round, which lies between 1 and ceil(log2(n)): the only one in which the modulus test fails after it held. |
| `Tournament.WinsIsMod` | aos/mpi/MPI/tourn.c:35-36 | Winning round r is divisibility by 2^r. |
| `Tournament.HasMeeting` | aos/mpi/MPI/tourn.c:38-62 | The recursion makes a process exchange messages with every partner of its rounds. |
| `Tournament.OnlyMeetings` | aos/mpi/MPI/tourn.c:38-62 | It exchanges messages with nobody else, and the order of these actions is that of the rounds, down and up. |
| `Tournament.BarrierWellFormed` | aos/mpi/MPI/tourn.c:38-62 | Every send has its receive and the ranks order all actions. |
| `Tournament.InStep` | aos/mpi/MPI/tourn.c:77-81 | Completed-barrier counts never differ by more than one. |
| `Tournament.Completes` | aos/mpi/MPI/tourn.c:77-81 | Progress in every reachable state, bounded runs, no message left at the end, and every run can be continued to the end. |
| `MessagePassing.RunInv` | aos/mpi/MPI/diss.c:35-40 | In every run each channel holds exactly the messages of the barriers it was sent to and not yet received from, in order. |
| `MessagePassing.MessageOfSameBarrier` | aos/mpi/MPI/diss.c:35-40 | A message is always received in the barrier in which it was sent. |
| `MessagePassing.Progress` | aos/mpi/MPI/diss.c:35-40 | No reachable unfinished state is stuck. |
| `MessagePassing.NothingInFlight` | aos/mpi/MPI/diss.c:35-40 | When all have finished, all channels are empty. |
| `MessagePassing.EveryRunCompletes` | aos/mpi/MPI/diss.c:57-60 | A run that cannot be continued has finished all barriers, and the number of steps is bounded. |
| `MessagePassing.CanBeCompleted` | aos/mpi/MPI/diss.c:57-60 | Every run of matching programs, however far it has come, can be continued until every process has left its last barrier. |
| `Rvm.Durability` | aos/l-recoverable-vm/prj4/rvm.cpp:112-165 | Over every run of map, begin, declare, write, commit, abort, truncate and crashes between calls, between the records of a commit or anywhere in a truncation, in which no committed region starts with white space: the memory that rvm_map rebuilds equals the abstract image in which each commit overwrites exactly its declared bytes with their commit-time values. |
| `Rvm.TruncationIsSafe` | aos/l-recoverable-vm/prj4/rvm.cpp:603-650 | Truncation that finishes, or stops anywhere, in the middle of a record too, does not change what a later mapping rebuilds; when it finishes, the file holds the image and the log is gone. |
| `Rvm.RunInv` | aos/l-recoverable-vm/prj4/rvm.cpp:112-165 | Every step of every run keeps file, log and image of every segment consistent. |
| `RvmTransactions.AtAnyTime` | aos/l-recoverable-vm/prj4/rvm.cpp:566-600 | The runs of all these statements may crash or truncate in every state, and crash in a commit after any number of its records. |
| `Rvm.CommitInv` | aos/l-recoverable-vm/prj4/rvm.cpp:577-596 | Appending any prefix of the redo list keeps them consistent with the image overwritten by that prefix. |
| `Rvm.ReplayIsOverlay` | aos/l-recoverable-vm/prj4/rvm.cpp:577-596 | Replaying the records of a commit, overlapping regions included, is the abstract overwrite of the declared bytes. |
| `Rvm.MapOk` | aos/l-recoverable-vm/prj4/rvm.cpp:112-165 | What rvm_map returns for a new, shorter or longer segment. |
| `RvmCommit.AtomicIff` | aos/l-recoverable-vm/prj4/rvm.cpp:577-596 | For every redo list: in every run and at every point between two records, a crash leaves the old image or the new one, if and only if the first nonempty region holds every declared byte. |
| `RvmCommit.CoveredIsAtomic` | aos/l-recoverable-vm/prj4/rvm.cpp:577-596 | The sufficient half, in any state. |
| `RvmCommit.TwoRegionsTear` | aos/l-recoverable-vm/prj4/rvm.cpp:577-596 | A concrete run from the empty system, with two bytes declared one by one, that leaves one of them new and one old. |
| `RvmCommit.CommitScansIff` | aos/l-recoverable-vm/prj4/rvm.cpp:153-163 | Whatever is committed: every log scans back to what was logged, if and only if no declared region starts with a white-space byte. |
| `RvmCommit.BlankCommitIsLost` | aos/l-recoverable-vm/prj4/rvm.cpp:156-159 | A concrete run that commits a region starting with a blank: what is mapped afterwards is not what was committed. |
| `RvmTransactions.AbortRun` | aos/l-recoverable-vm/prj4/rvm.cpp:370-425 | A run of begin, any declarations and writes, and abort changes the memory and nothing else, and can be carried out if and only if something was declared. |
| `RvmTransactions.AbortByte` | aos/l-recoverable-vm/prj4/rvm.cpp:385-415 | On that run, disk and log are as before, each declared byte has its value at the last declaration that covers it, and the others keep what was written. |
| `RvmTransactions.AbortRestores` | aos/l-recoverable-vm/prj4/rvm.cpp:385-415 | The whole system is as before begin, whenever no byte is written before its last declaration, nor at all where it is never declared. |
| `RvmTransactions.RestoresIff` | aos/l-recoverable-vm/prj4/rvm.cpp:385-415 | For every shape of a transaction: it restores whatever the memory holds and whatever is written, if and only if that condition holds of every byte. |
| `RvmTransactions.DisjointAbortRestores` | aos/l-recoverable-vm/prj4/rvm.cpp:309-362 | Pairwise disjoint regions that are declared before being written are a special case. |
| `RvmTransactions.RedeclaringKeepsWrite` | aos/l-recoverable-vm/prj4/rvm.cpp:385-415 | A run that declares a region again after a write keeps exactly that write after abort. |
| `Rvm.WrittenBackIsTruncated` | aos/l-recoverable-vm/prj4/rvm.cpp:609-649 | Going through the segment list truncates exactly the segments with a log, each as the step of the system does. |
| `Images.ReplayIsIdempotent` | aos/l-recoverable-vm/prj4/rvm.cpp:620-644 | Replaying a whole log over an image on which it was replayed in part, up to any byte of any record, equals replaying it once. |
| `Images.ReplayAt` | aos/l-recoverable-vm/prj4/rvm.cpp:153-163 | After a replay each byte holds what the last record covering it says. |
| `RedoLog.ScanPrinted` | aos/l-recoverable-vm/prj4/rvm.cpp:153-163 | Scanning the printed log gives the same records in order and stops at the end of the file, if and only if no payload starts with white space. |
| `RedoLog.BlankIsLost` | aos/l-recoverable-vm/prj4/rvm.cpp:156-158 | A payload with one leading blank comes back without it, and with the line feed that ended the record as its last byte. |
| `RedoLog.SampleLog` | aos/l-recoverable-vm/prj4/rvm.cpp:586-592 | The text of two records, character by character. |
| `RedoLog.LiteralMeans` | aos/l-recoverable-vm/prj4/rvm.cpp:154-155 | A literal of the format is matched if the input starts with it; the end of the input in the middle of it is told from a difference, as fscanf does. |
| `RedoLog.NoRecord` | aos/l-recoverable-vm/prj4/rvm.cpp:153-155 | Text that does not start like a record ends the scan without one. |
| `RedoLog.HeadCutOff` | aos/l-recoverable-vm/prj4/rvm.cpp:153-163 | A head without a name meets the end of the file, and the scan goes on with variables that were never set. |
| `RvmLibrary.Library.MapSegment` | aos/l-recoverable-vm/prj4/rvm.cpp:112-168 | Segment file, memory and segment list after rvm_map. |
| `RvmLibrary.Library.ApplyRedo` | aos/l-recoverable-vm/prj4/rvm.cpp:153-163 | The scan loop replays exactly the records of the log. |
| `RvmLibrary.Library.AboutToModify` | aos/l-recoverable-vm/prj4/rvm.cpp:309-362 | One undo record with a copy of the bytes and one redo entry pointing at the memory are appended; nothing else changes. |
| `RvmLibrary.Library.AbortTrans` | aos/l-recoverable-vm/prj4/rvm.cpp:385-415 | Undo records are applied oldest first; disk and log are unchanged. |
| `RvmLibrary.Library.CommitTrans` | aos/l-recoverable-vm/prj4/rvm.cpp:577-596 | The redo entries are appended to the logs of their segments in order, with the bytes of commit time; memory and segment files are unchanged. |
| `RvmLibrary.Library.TruncateLog` | aos/l-recoverable-vm/prj4/rvm.cpp:603-650 | Each mapped segment with a log is written back and its log removed. |
| `Base64.ChunkedRoundTrip` | cns/gnupg-2.0.22/common/b64enc.c:149-350 | For any bytes, any newline-free title (or none, or an empty one), any split into encoder writes and any split into decoder calls: decoding the output yields the original bytes with no invalid-encoding flag. |
| `Base64.RoundTrip` | cns/gnupg-2.0.22/common/b64dec.c:69-216 | The same in one piece; behind an end line the decoder has stopped. |
| `Base64.EncoderChunking` | cns/gnupg-2.0.22/common/b64enc.c:174-252 | Splitting the input of the encoder does not change its state or output, checksum included. |
| `Base64.DecoderChunking` | cns/gnupg-2.0.22/common/b64dec.c:91-207 | Splitting the input of the decoder does not change its state or output. |
| `Base64.LinesAreShort` | cns/gnupg-2.0.22/common/b64enc.c:236-310 | The output is header, encoded lines and footer; whatever the title, no encoded line and no checksum line exceeds 64 characters, the begin line has at most 16 and the end line at most 14 characters more than the title, and each part starts on a line of its own. |
| `Base64Format.ArmorText` | cns/gnupg-2.0.22/common/b64enc.c:141-350 | Whatever the writes, the text is literally that of the standards: the begin line with the title, the blank line of OpenPGP armor, the encoding of section 4 of RFC 4648 (each group of three octets as a number in base 64 of the alphabet written out, padded with "=") with a line feed behind every 64 characters and the last ones, "=" and the encoded checksum, the end line; without line feeds for an empty title; nothing if there is no data. |
| `Base64Format.LetterIs` | cns/gnupg-2.0.22/common/b64enc.c:36-38 | The table bintoasc is the alphabet written out. |
| `Base64Reading.PlainRead` | cns/gnupg-2.0.22/common/b64dec.c:91-216 | A decoder without a title, on any text without a pad character: the octets are those that the letters stand for, and bad data is reported if and only if some character is neither white space nor one of the 64 letters. |
| `Base64Reading.DataDecoded` | cns/gnupg-2.0.22/common/b64dec.c:125-180 | The same from any point at the start of a group, with or without a title, and what is held back. |
| `Base64Reading.PadEnds` | cns/gnupg-2.0.22/common/b64dec.c:134-141 | The first pad character ends the data; a single letter of a group in front of it still gives an octet; what follows is not looked at; the decoder stops behind the end line, or without a title at the next line feed. |
| `Base64Reading.DashEnds` | cns/gnupg-2.0.22/common/b64dec.c:128-133 | With a title, the first dash ends the data, and the decoder stops at the next line feed. |
| `Base64Reading.ArmorRead` | cns/gnupg-2.0.22/common/b64dec.c:64-207 | A decoder with a title passes over any lines in front of the begin line that are not the start of one, and reads the data behind it. |
| `Base64Reading.BeginSeenIff` | cns/gnupg-2.0.22/common/b64dec.c:108-123 | Behind another line a begin line is recognised if and only if that line is not a start of "-----BEGIN " itself, for example a blank line. |
| `Base64Reading.StartRefused` | cns/gnupg-2.0.22/common/b64dec.c:69-86 | Exactly the title "PGP" and titles that start with "PGP " are refused. |
| `Base64Reading.LetterRead` | cns/gnupg-2.0.22/common/b64dec.c:32-50 | The table asctobin knows the 64 letters and nothing else, each with its position in the alphabet. |
| `Base64.QuadDecodes` | cns/gnupg-2.0.22/common/b64dec.c:130-184 | Four characters of the encoder give back the three bytes. |
| `Base64.HeaderDecodes` | cns/gnupg-2.0.22/common/b64dec.c:109-129 | The decoder finds its way through the begin line, the blank line of PGP armor included. |
| `Base64.FooterDecodes` | cns/gnupg-2.0.22/common/b64dec.c:130-205 | The end line stops the decoder without an error. |
| `Base64.WaitingIsSilent` | cns/gnupg-2.0.22/common/b64dec.c:185-198 | Behind the padding or the checksum sign nothing is decoded. |
| `Crc24.SumAppend` | cns/gnupg-2.0.22/common/b64enc.c:210-218 | The checksum over two writes is the checksum over both together, although it is cut to 24 bits after each. |
| `Crc24Reference.SumIsChecksum` | cns/gnupg-2.0.22/common/b64enc.c:86-135 | For all data the checksum kept by the encoder is CRC-24 as section 6.1 of RFC 4880 computes it bit by bit, from 0xB704CE with the polynomial 0x1864CFB; the definition uses neither the table nor the constants of the encoder. |
| `Crc24Reference.UpdateIsBits` | cns/gnupg-2.0.22/common/b64enc.c:205-212 | One step with the table does what eight single bits do. |
| `Base64Streams.Base64Writer.Write` | cns/gnupg-2.0.22/common/b64enc.c:174-252 | b64enc_write: the state after it is the specified one, checksum included; `Base64Format.ArmorText` says what text this leads to. |
| `Base64Streams.Base64Writer.Finish` | cns/gnupg-2.0.22/common/b64enc.c:255-350 | b64enc_finish: the text written is the specified one, which `Base64Format.ArmorText` gives literally. |
| `Base64Streams.Base64Reader.Start` | cns/gnupg-2.0.22/common/b64dec.c:69-86 | b64dec_start: the decoder of every round trip is one made here; titles for OpenPGP armor are refused. |
| `Base64Streams.Base64Reader.Proc` | cns/gnupg-2.0.22/common/b64dec.c:91-207 | b64dec_proc decodes in place: the first bytes of the buffer are the decoded ones, the state is the specified one, and the write position never passes the read position. |
| `Base64Streams.Base64Reader.Finish` | cns/gnupg-2.0.22/common/b64dec.c:211-216 | The error flag is returned. |
| `PassphraseCache.HandleSafety` | cns/gnupg-2.0.22/agent/cache.c:83-340 | Across every interleaving of put, get, flush, expiry and paired unlocks: each lock count equals the outstanding handles, and an item with a handle stays in the list with the data its holder was given. |
| `PassphraseCache.HeldDataIsStable` | cns/gnupg-2.0.22/agent/cache.c:221-314 | While a handle is held no operation changes its data. |
| `PassphraseCache.HitIsFresh` | cns/gnupg-2.0.22/agent/cache.c:83-124 | In every run a hit on an unlocked item returns data that is neither past its idle lifetime nor past its maximum age. |
| `PassphraseCache.GetReturnsPut` | cns/gnupg-2.0.22/agent/cache.c:199-314 | A put, any events that leave the key alone, and a get before expiry: the get returns the data just put, even with older locked items of the key. |
| `PassphraseCache.GetDecides` | cns/gnupg-2.0.22/agent/cache.c:283-301 | In every state, a get returns the data of an unlocked item that has not expired, if and only if no other such item of the key stands in front of it. |
| `PassphraseCache.ReleaseDecides` | cns/gnupg-2.0.22/agent/cache.c:323-340 | After a put, any events that leave the key alone and the release of a handle, a get before expiry returns the data put, if and only if the release was not that of the last handle to an unexpired item of the key in front of it. |
| `PassphraseCache.StepIsOperation` | cns/gnupg-2.0.22/agent/cache.c:199-340 | The steps of these runs are the operations themselves. |
| `PassphraseCache.FlushHidesUnlocked` | cns/gnupg-2.0.22/agent/cache.c:163-189 | After a flush a get of the key hits if and only if some item of the key was locked and filled. |
| `PassphraseCache.ReleaseBringsBackOldData` | cns/gnupg-2.0.22/agent/cache.c:283-314 | A concrete run in which releasing a handle makes older data come back although newer data was put. |
| `PassphraseCache.TidyIsFresh` | cns/gnupg-2.0.22/agent/cache.c:83-124 | After housekeeping no unlocked data is idle for too long or too old. |
| `CacheContract.TendMeans` | cns/gnupg-2.0.22/agent/cache.c:84-161 | The three passes of housekeeping in seconds: for each item, data is wiped exactly if it is unlocked and idle for longer than its lifetime or older than the limit for its kind; empty slots are removed after 1800 seconds unless locked; everything else stays. |
| `CacheContract.GetMeans` | cns/gnupg-2.0.22/agent/cache.c:274-320 | A get hits if and only if an item of the key still has its data; it returns the first unlocked one, and a locked one only if there is no other; that item is stamped and locked once more, and nothing else changes besides housekeeping. |
| `CacheContract.PutThenGet` | cns/gnupg-2.0.22/agent/cache.c:199-320 | After any put (any mode, lifetime, data or none, memory or none), a get of any key hits if and only if the data put is still fresh, or an item other than the one the put used had its data at the put and has it at the get. |
| `CacheContract.PutNothingDeletes` | cns/gnupg-2.0.22/agent/cache.c:193-231 | After a put of NULL a get of the key hits if and only if an item of the key other than the first unlocked one left by housekeeping has data that is locked or has not expired. |
| `CacheContract.FreshIsReturned` | cns/gnupg-2.0.22/agent/cache.c:199-320 | Data that is still fresh is what a get of the key returns, whatever else is there. |
| `CacheContract.PutAgain` | cns/gnupg-2.0.22/agent/cache.c:221-243 | The first unlocked item of the key is used again: emptied, or filled and stamped, or emptied where memory is missing. |
| `CacheContract.PutNew` | cns/gnupg-2.0.22/agent/cache.c:244-265 | Without one, a new item is put in front, and only with data and memory. |
| `CacheContract.FlushedOnRelease` | cns/gnupg-2.0.22/agent/cache.c:164-190 | What is locked at a flush is not given out any more once its last handle is back. |
| `CacheContract.FlushMeans` | cns/gnupg-2.0.22/agent/cache.c:164-190 | What a flush does to each item. |
| `CacheContract.RunGoesOn` | cns/gnupg-2.0.22/agent/cache.c:324-341 | Every allowed event continues a run, by the step of that event. |
| `CacheList.AgentCache.Housekeeping` | cns/gnupg-2.0.22/agent/cache.c:83-160 | The three walks over the list, removal included, compute the specified list. |
| `CacheList.AgentCache.Put` | cns/gnupg-2.0.22/agent/cache.c:199-268 | agent_put_cache computes the specified list; `CacheContract.PutThenGet` says what a get returns afterwards, `CacheContract.PutNothingDeletes` for NULL. |
| `CacheList.AgentCache.Get` | cns/gnupg-2.0.22/agent/cache.c:273-320 | agent_get_cache computes the specified list and hit. |
| `CacheList.AgentCache.Flush` | cns/gnupg-2.0.22/agent/cache.c:163-189 | agent_flush_cache computes the specified list. |
| `CacheList.AgentCache.Unlock` | cns/gnupg-2.0.22/agent/cache.c:323-340 | agent_unlock_cache_entry computes the specified list. |
| `RoundRobin.OneTurnEach` | aos/gthreads/gtthread_sched.c:54-92 | Between two consecutive turns of a live thread every other thread that existed and stayed live gets exactly one turn, while threads are created and others end. |
| `RoundRobin.TurnsAreCounted` | aos/gthreads/gtthread_sched.c:54-92 | The number of turns in that statement is the number of calls of the run after which the scheduler has handed the processor to the thread. |
| `RoundRobin.RunAccounted` | aos/gthreads/gtthread.c:68-103 | After any calls the active count equals the number of created slots that have not exited. |
| `RoundRobin.ApplyAccounted` | aos/gthreads/gtthread.c:149-191 | Each call keeps that count, a call that creates, exits or cancels included. |
| `RoundRobin.DispatchFinds` | aos/gthreads/gtthread_sched.c:56-88 | The scheduler finds a live thread whenever there is one. |
| `RoundRobin.CallMeans` | aos/gthreads/gtthread.c:68-191 | For every call and slot: the slot is exited afterwards if and only if it was before, or the call was an exit of the thread that runs in it, or a cancel of that slot, which is open and not slot 0. Only a create opens a slot, up to 200, and the new slot is live. |
| `RoundRobin.ExitedIff` | aos/gthreads/gtthread.c:149-191 | Over whole runs, a slot has exited at the end exactly if it had at the start, or an exit was called while it had the processor, or it was cancelled while open and not slot 0. |
| `RoundRobin.HandsOn` | aos/gthreads/gtthread_sched.c:54-92 | A call that gives up the processor hands it to the first live slot behind the caller in cyclic order, the caller being the last; all others leave it where it is. |
| `RoundRobin.Library.Schedule` | aos/gthreads/gtthread_sched.c:54-92 | The scheduler loop ends at the next live slot, or with no live thread at all. |
| `RoundRobin.Library.Create` | aos/gthreads/gtthread.c:68-103 | A slot is added behind the others, or -1 is returned when the table is full. |
| `RoundRobin.Library.Exit` | aos/gthreads/gtthread.c:149-170 | The current slot is marked and the next live thread gets the turn. |
| `RoundRobin.Library.Cancel` | aos/gthreads/gtthread.c:172-191 | The slot asked for is marked if it is open, live and not the main thread, and then the scheduler runs; `RoundRobin.CallMeans` says who ends and who does not. |
| `ForkOrder.NoDeadlock` | aos/gthreads/gtthread_mutex.c:9-27 | For any number of threads that take two mutexes in descending order and release both: in every reachable state there is mutual exclusion and some thread can make real progress. |
| `ForkOrder.PassMakesProgress` | aos/gthreads/gtthread_mutex.c:9-27 | A pass of turns over all threads moves at least one of them. |
| `ForkOrder.RunInv` | aos/gthreads/gtthread_mutex.c:9-27 | Mutual exclusion, and a set lock has a holder, in every run. |
| `ForkOrder.EatsAlone` | aos/gthreads/gtthread_mutex.c:9-27 | In no reachable state do two threads that share a mutex hold both of theirs. |
| `ForkOrder.ForksLieAround` | aos/gthreads/runner.c:14-44 | Philosopher i has fork i and the one before it around the table, and takes the higher one first. |
| `ForkOrder.NeighboursEatInTurn` | aos/gthreads/runner.c:45-74 | No two neighbours ever eat at the same time. |
| `ForkOrder.PhilosophersAreSafe` | aos/gthreads/runner.c:14-74 | The fork table of runner.c satisfies the ordering, so its philosophers never deadlock. |

## Left out

- Foreign code: AES, 3DES, RC2, SHA-1, HMAC, big-integer printing and scanning, character-set conversion and gcry_sexp_canon_len are function parameters with the laws written down in `Lawful`; libgcrypt errors are not modelled.
- Memory and I/O failures, logging, wiping of memory and the clock (times are parameters) are left out throughout.
- Integers are unbounded except where a wrap-around is written out: tag numbers, lengths and iteration counts of the DER parser wrap; `int` lengths of more than 2^31 octets are not modelled.
- minip12.c: string_to_key is not modelled beyond its limit of 31 octets for the password, because gcry_mpi_print may write fewer octets than its caller assumes; re-encoding the password to another character set before building is left out. Files that mix definite and indefinite lengths in other ways than those described are parsed by the same functions, but nothing is stated about them.
- Rvm.Durability: runs in which a committed region starts with a white-space byte, because the log then cannot be read back; `CommitScansIff` says that this is the exact limit.
- MiniP12.Build: asks for encoded lengths below 65536, because the bag builders do not check for larger ones and then write past the sizes they computed.
- protect.c: calibration of the iteration count, shadow keys and agent_private_key_type; keys whose lengths are written with leading zeros, which are not canonical; white space and signs before the iteration count; decrypted text that passes the quick check without being a list of a list and a digest.
- MPI: sends are buffered; a send that waits for its receiver is not modelled. NUM_BARRIERS is any number.
- rvm.cpp: rvm_unmap, rvm_destroy and the list surgery of Cleanup_transaction; several live transactions; Busy flags; a declaration for a segment that is not mapped; the scan of logs that rvm_commit_trans did not write, where fscanf leaves variables unset.
- rvm.cpp: a crash in the middle of writing one log record; the scan of such a log goes on with variables that were never set.
- RvmLibrary.Library.TruncateLog: asks for logs that can be scanned and records that fit, as every run leaves them.
- RedoLog: signs before numbers.
- Base64: write errors. The checksum table is given by the recurrence that generated it.
- cache.c: debug output; a passphrase is a string without its terminating zero.
- gtthread: the timer and preemption inside of library calls, generate_thread_id, gtthread_join, and the resumption of the caller of gtthread_cancel.
- The OpenMP barriers, producer_consumer.c, dining_philosophers.c (its fork order is cyclic), the timing programs and the rest of the gpg-agent: input and output, user interface, or easy members.
