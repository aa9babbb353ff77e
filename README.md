# quiclike core in Dafny

This project models the handshake and packet-header core of the `quiclike` Rust workspace, in Dafny, and proves properties of it. It covers three crates:

- **smog**: the Noise handshake planning code.
  - `hspn_der.rs`: the step lists each role runs, and the cursor-driven session `tick`.
  - `dhpn.rs`: the pattern-name tokenizer and the key bookkeeping of a session.
  - `dhpn_der.rs`: the pattern parser and the message/psk flow builder.
  - `fallback.rs`: the IK-to-XX fallback automaton of Noise Pipes.
  - Two snapshots of the Noise `CipherState` and `SymmetricState`:
    - `state_machines/`: a 12-byte little-endian nonce stepped with carry loops, and the HKDF of colloid.
    - `states/`: a generic cipher and hash suite.
- **colloid**: `hash.rs`, the Noise HKDF built over keyed BLAKE3.
- **tobacco**: `header.rs`, the long and short packet header codec.

Each source file is one Dafny module:

| module | file |
|---|---|
| `HandshakeDerivation` | `hspn_der.dfy` |
| `PatternTokens` | `dhpn.dfy` |
| `PatternFlow` | `dhpn_der.dfy` |
| `Fallback` | `fallback.dfy` |
| `ColloidHash` | `colloid_hash.dfy` |
| `MachinesCipherState` | `machines_cipher_state.dfy` |
| `MachinesSymmetricState` | `machines_symmetric_state.dfy` |
| `StatesCipherState` | `states_cipher_state.dfy` |
| `StatesSymmetricState` | `states_symmetric_state.dfy` |
| `PacketHeader` | `header.dfy` |

Three helper modules are shared:

- `Wrappers`: Option and Result.
- `Bytes`: bytes, big- and little-endian values, the nonce successor and predecessor.
- `Text`: splitting, prefixes, ASCII case, and Rust's unsigned decimal parse.

How the source maps to Dafny:

- **Pure code** becomes functions, with lemmas about them.
- **Objects that Rust mutates through `&mut self`** become classes:
  - both cipher states and both symmetric states
  - the fallback pipe
  - the handshake session
  - the key store
  - the output buffer of the header writers
- **Loops** become methods with loop invariants. Each is proved against a specification function:
  - the nonce carry and borrow loops
  - the tokenizer's letter loop
  - `build_flow`'s message loop
- **Header parsing and writing** are methods over a byte buffer, without loops. Each is proved against a specification function.
- **Cryptographic primitives** are parameters: BLAKE3, keyed BLAKE3, ChaCha20-Poly1305 and the generic `Cipher`/`Hash` traits.
- **Panics** are handled in two ways:
  - A panic an ordinary input can reach becomes an explicit outcome: `Panicked`, `TickPanic` or `None`.
  - A panic that only a caller's broken contract can reach becomes a `requires`.

## Model

| member | source | states |
|---|---|---|
| HandshakeDerivation.Insert | smog/src/hspn_der.rs:69-72 | `Vec::insert(i, x)` puts `x` at index `i` and keeps the elements before and after it |
| HandshakeDerivation.InitiatorBase | smog/src/hspn_der.rs:32-67 | the initiator's list starts with SendStatic exactly when the pattern starts with 'I', otherwise with SendEphemeral; it always receives the responder's ephemeral and never receives a static or a psk |
| HandshakeDerivation.Finish | smog/src/hspn_der.rs:69-75 | with psk, SendPskTag is inserted at the given index and Done appended; without psk, only Done is appended; Done occurs once, at the end |
| HandshakeDerivation.InitiatorSteps | smog/src/hspn_der.rs:32-77 | the list ends in a single Done; SendPskTag occurs iff the descriptor has psk; RecvStatic and RecvPskTag never occur |
| HandshakeDerivation.ResponderBase | smog/src/hspn_der.rs:79-99 | starts with RecvEphemeral, has 2 to 4 entries, and has fewer than 3 exactly for the non-I, K-ending patterns |
| HandshakeDerivation.ResponderSteps | smog/src/hspn_der.rs:79-108 | panics (None) exactly when psk is set and the list is too short for `insert(3, ..)`; otherwise SendPskTag is at index 3 iff psk, and there is one Done, at the end |
| HandshakeDerivation.InitiatorStepsWithoutPsk | smog/src/hspn_der.rs:32-77 | without psk the initiator list is exactly the five conditional pushes of the source followed by Done |
| HandshakeDerivation.InitiatorPskInsertsAtTwo | smog/src/hspn_der.rs:69-75 | the psk list is the plain list with SendPskTag inserted at index 2 |
| HandshakeDerivation.ResponderStepsWithoutPsk | smog/src/hspn_der.rs:79-108 | without psk the responder list is RecvEphemeral, RecvStatic iff 'I', SendEphemeral, SendStatic iff the second letter is not 'K', then Done |
| HandshakeDerivation.IkPskInitiatorSteps | smog/examples/mock_session.rs:26-37 | the IK/psk initiator runs SendStatic, SendEphemeral, SendPskTag, RecvEphemeral, Done, as the example's log expects |
| HandshakeDerivation.IkPskResponderSteps | smog/examples/mock_session.rs:26-37 | the IK/psk responder runs RecvEphemeral, RecvStatic, SendEphemeral, SendPskTag, Done, as the example's log expects |
| HandshakeDerivation.TickSpec | smog/src/hspn_der.rs:129-141 | a tick panics exactly when the step list cannot be built; the cursor either stays or moves forward by one with an Ok outcome; it moves exactly when there is a step under the cursor and that step succeeds; the outcome is an error exactly when the step under the cursor fails; the cursor never passes the end of the list unless it already was past it |
| HandshakeDerivation.DriveRunsStepsInOrder | smog/src/hspn_der.rs:129-141 | k successful ticks run exactly the steps cursor..cursor+k in order (capped at the end) and leave the cursor after them |
| HandshakeDerivation.Session.constructor | smog/src/hspn_der.rs:112-121 | a session holds its role and mode and starts at cursor 0 |
| HandshakeDerivation.Session.Tick | smog/src/hspn_der.rs:129-141 | the outcome and new cursor of `tick` are those of the step-list specification for the session's role and mode |
| PatternTokens.DhFromStr | smog/src/dhpn.rs:17-27 | accepts exactly the four DH names "ee", "es", "se", "ss" and rejects every other string |
| PatternTokens.DhNameRoundTrip | smog/src/dhpn.rs:17-27 | every DH step parses back from its name |
| PatternTokens.TokenFromStr | smog/src/dhpn.rs:100-115 | a parsed token prints back to the input; a rejected input is no token's name (psk only 0..3, written "+psk<n>") |
| PatternTokens.TokenNameRoundTrip | smog/src/dhpn.rs:100-115 | every token with psk at most 3 parses back from its name |
| PatternTokens.LeadingRun | smog/src/dhpn.rs:66-71 | the regex `^[IXKxkNn]+` match: the longest prefix of pattern letters, with the next character not a pattern letter |
| PatternTokens.PrefixSuffix | smog/src/dhpn.rs:62 | `split_once('+')`: the prefix has no '+', and prefix + "+" + suffix rebuilds the input; without '+' the suffix is empty |
| PatternTokens.BodyTokens | smog/src/dhpn.rs:65-83 | fails exactly when the prefix does not start with a pattern letter; otherwise one X/K/N/I token per letter of the leading run, and the token at each position is that letter upper-cased |
| PatternTokens.PskTokens | smog/src/dhpn.rs:90-94 | a suffix not starting with "psk" adds nothing; after "psk" the result is the invalid-psk-number error exactly when the rest does not parse as a u8, and otherwise the single token Psk carrying the parsed number |
| PatternTokens.Tokenize | smog/src/dhpn.rs:60-97 | fails exactly when the prefix (the text before the first '+') has no leading pattern letter, or its psk suffix fails; a bad prefix is the invalid-prefix error; a result starts with the prefix's letter tokens, ends with the suffix's psk tokens, has a length that adds up, holds Fallback exactly when the prefix ends with "fallback", and can hold a Psk token only last |
| PatternTokens.TokenizeParts | smog/src/dhpn.rs:68-96 | the same guarantees for an already split prefix and suffix, as a function of that prefix and suffix |
| PatternTokens.LettersToTokens | smog/src/dhpn.rs:74-83 | the letter loop produces one token per upper-case letter, in order |
| PatternTokens.NewTokens | smog/src/dhpn.rs:60-97 | `Tokens::new` returns the tokenizer's result for every input, errors included |
| PatternTokens.TokenizeName | smog/src/dhpn.rs:60-97 | letters, optional "fallback", optional "+psk<n>" with n a u8 read back as the letter tokens, then Fallback, then Psk(n) |
| PatternTokens.TokenizeRejectsPrefix | smog/src/dhpn.rs:68-70 | a name not starting with a pattern letter is rejected with "invalid pattern prefix" |
| PatternTokens.TokenizeIgnoresOtherSuffix | smog/src/dhpn.rs:90-94 | a suffix that does not start with "psk" is ignored |
| PatternTokens.TokenizeRejectsLargePsk | smog/src/dhpn.rs:92 | a psk number above 255 does not fit a u8 and is rejected |
| PatternTokens.Keys.constructor | smog/src/dhpn.rs:118-143 | a new key store is empty, with every has-flag false |
| PatternTokens.Keys.SetLocalEphemeral | smog/src/dhpn.rs:148-150 | stores the local ephemeral key and changes nothing else |
| PatternTokens.Keys.SetLocalStatic | smog/src/dhpn.rs:153-155 | stores the local static key and changes nothing else |
| PatternTokens.Keys.SetRemoteEphemeral | smog/src/dhpn.rs:159-161 | stores the remote ephemeral key and changes nothing else |
| PatternTokens.Keys.SetRemoteStatic | smog/src/dhpn.rs:164-166 | stores the remote static key and changes nothing else |
| PatternTokens.Keys.SetHasLocalEphemeral | smog/src/dhpn.rs:171-173 | raises only the local-ephemeral flag |
| PatternTokens.Keys.SetHasLocalStatic | smog/src/dhpn.rs:176-178 | raises only the local-static flag |
| PatternTokens.Keys.SetHasRemoteEphemeral | smog/src/dhpn.rs:181-183 | raises only the remote-ephemeral flag |
| PatternTokens.Keys.SetHasRemoteStatic | smog/src/dhpn.rs:186-188 | raises only the remote-static flag |
| PatternTokens.Session.constructor | smog/src/dhpn.rs:233-235 | a session keeps its pattern and role and owns a fresh, empty key store |
| PatternTokens.Session.SetLocalStatic | smog/src/dhpn.rs:282-284 | the getter then returns the key; the other keys are unchanged |
| PatternTokens.Session.SetLocalEphemeral | smog/src/dhpn.rs:287-289 | the getter then returns the key; the other keys are unchanged |
| PatternTokens.Session.SetRemoteStatic | smog/src/dhpn.rs:292-294 | the getter then returns the key; the other keys are unchanged |
| PatternTokens.Session.SetRemoteEphemeral | smog/src/dhpn.rs:297-299 | the getter then returns the key; the other keys are unchanged |
| PatternFlow.PatternFromStr | smog/src/dhpn_der.rs:38-61 | a parsed pattern prints back to the input; a rejected input is no pattern's name |
| PatternFlow.PatternNameRoundTrip | smog/src/dhpn_der.rs:38-61 | every pattern parses back from its name |
| PatternFlow.PatternNameInjective | smog/src/dhpn_der.rs:38-61 | no two patterns share a name |
| PatternFlow.ParseFull | smog/src/dhpn_der.rs:64-83 | two or more '+' give "invalid syntax"; without '+' the result is the pattern parse with no psk; a parsed pattern is the first '+'-piece; a psk is below `usize::MAX` |
| PatternFlow.ParseParts | smog/src/dhpn_der.rs:66-82 | more than two pieces are invalid syntax; a result names the first piece; with a valid name and two pieces, the error is "invalid psk suffix" exactly when the second piece does not start with "psk", and "invalid psk number" exactly when the digits after "psk" do not parse as a usize; a successful two-piece parse carries that number, or no psk for `usize::MAX` |
| PatternFlow.ParsePlain | smog/src/dhpn_der.rs:64-83 | a name without '+' parses to its pattern and no psk, or to the pattern error |
| PatternFlow.ParseWithPsk | smog/src/dhpn_der.rs:70-82 | "<name>+psk<n>" parses to Some(n) for n below `usize::MAX`; n equal to `usize::MAX` reads as no psk |
| PatternFlow.ParseRejectsBadPskNumber | smog/src/dhpn_der.rs:64-79 | with a valid name, "<name>+psk<rest>" is "invalid psk number" whenever rest does not parse as a usize |
| PatternFlow.ParseBadSuffix | smog/src/dhpn_der.rs:70-74 | a second piece not starting with "psk" gives "invalid psk suffix" once the name is valid |
| PatternFlow.ParsePatternNames | smog/src/dhpn_der.rs:64-83 | every pattern name, bare or with "+psk<n>", parses back to the pattern and psk |
| PatternFlow.BaseOrder | smog/src/dhpn_der.rs:86-96 | one-way patterns have 1 message, six patterns 3 and the rest 4, and the roles alternate starting with the initiator |
| PatternFlow.MessageTable | smog/src/dhpn_der.rs:113-134 | each pattern has at least one message and at most as many as its base order; message i carries index i |
| PatternFlow.DhsOfSingle | smog/src/dhpn_der.rs:154-158 | a single token is kept exactly when it is a DH token |
| PatternFlow.DhsOfAppend | smog/src/dhpn_der.rs:154-158 | the filter keeps order and multiplicity: filtering a concatenation is the concatenation of the filtered parts |
| PatternFlow.DhsOf | smog/src/dhpn_der.rs:154-158 | the filter keeps exactly the DH tokens ee/es/se/ss, and never lengthens the list |
| PatternFlow.Messages | smog/src/dhpn_der.rs:139-164 | one message step per table entry, in table order, none of them a psk event |
| PatternFlow.PskSteps | smog/src/dhpn_der.rs:143-150 | the psk event for position n carries Some(n) |
| PatternFlow.BuildFlow | smog/src/dhpn_der.rs:108-179 | `build_flow`'s loop yields exactly the woven flow specification |
| PatternFlow.WeavePlan | smog/src/dhpn_der.rs:136-178 | the loop over the message table keeps the flow equal to the weave of the first j messages |
| PatternFlow.AppendMessage | smog/src/dhpn_der.rs:139-164 | one loop iteration extends the weave by the optional psk event and one message |
| PatternFlow.FlowShape | smog/src/dhpn_der.rs:139-176 | psk n below the message count goes just before message n; n equal to the base length goes after the last message; any other n is dropped |
| PatternFlow.PskEventsAppend | smog/src/dhpn_der.rs:137-178 | the psk events of a concatenation are those of each part in order |
| PatternFlow.FlowPskEvents | smog/src/dhpn_der.rs:142-176 | the flow carries the psk event once exactly when n is below the message count or equals the base length, and otherwise never |
| PatternFlow.IkPsk2LosesPsk | smog/src/dhpn_der.rs:166-176 | as written, IK with psk 2 yields a flow with no psk event |
| PatternFlow.FlowIntendedHasPskEvent | smog/src/dhpn_der.rs:166-176 | corrected: every psk position up to the message count yields exactly one psk event |
| PatternFlow.IkPsk2KeepsPskWhenCorrected | smog/src/dhpn_der.rs:166-176 | corrected: IK with psk 2 carries its psk event |
| Fallback.FallbackStep | smog/src/fallback.rs:40-50 | succeeds iff in IK with a pending XX, moving to that XX; fails with "already in fallback" iff in XX; a failure changes nothing |
| Fallback.XxIsTerminal | smog/src/fallback.rs:40-50 | once in XX, any number of fallbacks leaves the state as it is |
| Fallback.AtMostOneFallback | smog/src/fallback.rs:40-50 | two successive fallbacks never both succeed |
| Fallback.FreshPipeFallsBackOnce | smog/src/fallback.rs:16-50 | a fresh pipe falls back once to XX/3, a second fallback reports "already in fallback", and XX/3 stays active afterwards |
| Fallback.Pipe.constructor | smog/src/fallback.rs:16-29 | a new pipe starts in the new-pipe state |
| Fallback.Pipe.Mode | smog/src/fallback.rs:32-37 | returns the active descriptor |
| Fallback.Pipe.Fallback | smog/src/fallback.rs:40-50 | the result and new state are those of the fallback step |
| ColloidHash.HkdfOutputs | colloid/src/hash.rs:18-48 | outputs 1 and 2 are the Noise HKDF outputs of the keyed hash; output 3 is produced iff more than two are asked for and a slot exists |
| ColloidHash.FirstOutputsIgnoreNumOut | colloid/src/hash.rs:18-48 | the first two outputs do not depend on the output count or the third slot |
| ColloidHash.Hkdf | colloid/src/hash.rs:18-48 | the output slices receive the HKDF outputs; the third slot is written only when a third output is produced and keeps its bytes otherwise |
| ColloidHash.CopyInto | colloid/src/hash.rs:30-36 | `copy_from_slice` of a 32-byte output fills the slot with it |
| Bytes.SuccValue | smog/src/state_machines/cipher_state.rs:26-36 | the carry loop's result is the nonce's little-endian value plus one, wrapping at 2^(8·len) |
| Bytes.PredValue | smog/src/state_machines/cipher_state.rs:38-48 | the borrow loop's result is the nonce's value minus one, wrapping at zero |
| Bytes.PredSucc | smog/src/state_machines/cipher_state.rs:26-48 | decrementing undoes an increment |
| Bytes.SuccPred | smog/src/state_machines/cipher_state.rs:26-48 | incrementing undoes a decrement |
| Bytes.LeValueInjective | smog/src/state_machines/cipher_state.rs:26-48 | nonces of equal length and equal value are equal |
| Bytes.BeRoundTrip | tobacco/src/header.rs:135-140 | a value below 2^(8·width) is read back from its big-endian bytes |
| Bytes.BeBytesOfBeValue | tobacco/src/header.rs:104-108 | writing back the big-endian value of a byte string rebuilds it |
| MachinesCipherState.AdvanceValue | smog/src/state_machines/cipher_state.rs:26-36 | after m increments the nonce's value is the old value plus m modulo 2^96 |
| MachinesCipherState.FreshNonceCounts | smog/src/state_machines/cipher_state.rs:26-36 | a zero nonce after m increments holds m |
| MachinesCipherState.NoncesDistinct | smog/src/state_machines/cipher_state.rs:26-36 | fewer than 2^96 messages never reuse a nonce |
| MachinesCipherState.CipherState.Default | smog/src/state_machines/cipher_state.rs:6-10 | the derived default is a zero key and a zero nonce |
| MachinesCipherState.CipherState.Init | smog/src/state_machines/symmetric_state.rs:32-34 | a cipher state built from a key has a zero nonce |
| MachinesCipherState.CipherState.HasKey | smog/src/state_machines/cipher_state.rs:18-20 | a 32-byte key array is never empty, so `has_key` always holds |
| MachinesCipherState.CipherState.InitKey | smog/src/state_machines/cipher_state.rs:13-16 | sets the key and resets the nonce to zero |
| MachinesCipherState.CipherState.SetNonce | smog/src/state_machines/cipher_state.rs:22-24 | the nonce becomes the given 12 bytes |
| MachinesCipherState.CipherState.IncrementNonceLe | smog/src/state_machines/cipher_state.rs:26-36 | the carry loop makes the nonce its successor |
| MachinesCipherState.CipherState.DecrementNonceLe | smog/src/state_machines/cipher_state.rs:38-48 | the borrow loop makes the nonce its predecessor |
| MachinesCipherState.CipherState.EncryptWithAd | smog/src/state_machines/cipher_state.rs:50-60 | the nonce advances first and the AEAD runs under the new nonce; success is the AEAD's |
| MachinesCipherState.CipherState.DecryptWithAd | smog/src/state_machines/cipher_state.rs:62-79 | the AEAD runs under the next nonce; on failure the nonce is rolled back, so only success consumes a nonce |
| MachinesCipherState.CipherState.Rekey | smog/src/state_machines/cipher_state.rs:81-84 | the key becomes the rekeyed key on success and is kept on failure |
| MachinesSymmetricState.SymmetricState.constructor | smog/src/state_machines/symmetric_state.rs:14-18 | the struct literal holds the three given fields |
| MachinesSymmetricState.SymmetricState.Init | smog/src/state_machines/symmetric_state.rs:21-35 | h is the name itself when it is HASHLEN bytes long and its hash otherwise; ck copies h; the cipher state has a zero key and nonce |
| MachinesSymmetricState.SymmetricState.MixKey | smog/src/state_machines/symmetric_state.rs:37-44 | ck becomes HKDF output 1 and the key becomes output 2 with the nonce reset; h is unchanged |
| MachinesSymmetricState.SymmetricState.MixHash | smog/src/state_machines/symmetric_state.rs:46-49 | h becomes the hash of h followed by the data |
| MachinesSymmetricState.SymmetricState.MixKeyAndHash | smog/src/state_machines/symmetric_state.rs:52-66 | output 2 is mixed into h and output 3 keys the cipher state; as written, ck keeps its old value |
| MachinesSymmetricState.SymmetricState.GetHandshakeHash | smog/src/state_machines/symmetric_state.rs:70-72 | returns h |
| MachinesSymmetricState.SymmetricState.EncryptAndHash | smog/src/state_machines/symmetric_state.rs:76-82 | as written, runs the decrypting AEAD direction with h as data and returns the buffer unchanged; h is not updated |
| MachinesSymmetricState.SymmetricState.DecryptAndHash | smog/src/state_machines/symmetric_state.rs:85-91 | as written, runs the encrypting AEAD direction, always advancing the nonce, and returns the buffer unchanged |
| MachinesSymmetricState.SymmetricState.Split | smog/src/state_machines/symmetric_state.rs:93-105 | two fresh cipher states keyed with HKDF(ck, empty) outputs 1 and 2, both with zero nonces |
| StatesCipherState.IntendedRoundTrip | smog/src/states/cipher_state.rs:27-35 | with decryption under n + 1, a sound cipher decrypts what the same state encrypted |
| StatesCipherState.AsWrittenRejectsOwnCiphertext | smog/src/states/cipher_state.rs:27-35 | as written (decrypt under n, encrypt under n + 1), there is a sound cipher that authenticates the nonce, as ChaCha20-Poly1305 does, under which a state rejects every ciphertext it produced |
| StatesCipherState.CipherState.New | smog/src/states/cipher_state.rs:11-13 | the given key and nonce |
| StatesCipherState.CipherState.Init | smog/src/states/cipher_state.rs:15-17 | the given key and a zero nonce |
| StatesCipherState.CipherState.HasKey | smog/src/states/cipher_state.rs:19-21 | a 32-byte key array is never empty, so `has_key` always holds |
| StatesCipherState.CipherState.SetNonce | smog/src/states/cipher_state.rs:23-25 | only the nonce changes |
| StatesCipherState.CipherState.EncryptWithAd | smog/src/states/cipher_state.rs:27-30 | the cipher's ciphertext under nonce n + 1 |
| StatesCipherState.CipherState.DecryptWithAd | smog/src/states/cipher_state.rs:32-35 | the cipher's plaintext under nonce n; None stands for the `expect` panic |
| StatesCipherState.CipherState.DecryptWithAdIntended | smog/src/states/cipher_state.rs:32-35 | corrected: decryption under n + 1 returns every message this state encrypted with a sound cipher |
| StatesCipherState.CipherState.Rekey | smog/src/states/cipher_state.rs:37-39 | the key becomes the cipher's rekey of the old key at the current nonce |
| StatesSymmetricState.Resize | smog/src/states/symmetric_state.rs:29-31 | `Vec::resize(len, 0)`: the result has length len, keeps every byte of the input below len, and is zero at every position past the input |
| StatesSymmetricState.PaddedNameKeepsName | smog/src/states/symmetric_state.rs:28-32 | the 46-byte protocol name keeps all its bytes and gains 18 zero bytes |
| StatesSymmetricState.SymmetricState.New | smog/src/states/symmetric_state.rs:22-24 | the given cipher state and hash suite, with ck and h all zeros |
| StatesSymmetricState.SymmetricState.Init | smog/src/states/symmetric_state.rs:26-38 | h is the hash of the zero-padded protocol name, ck copies it, and the cipher state restarts with a zero key and nonce |
| StatesSymmetricState.SymmetricState.MixKey | smog/src/states/symmetric_state.rs:40-47 | with both outputs present, ck takes the first and a fresh cipher state the first 32 bytes of the second; otherwise nothing changes; h never changes |
| StatesSymmetricState.SymmetricState.MixHash | smog/src/states/symmetric_state.rs:49-51 | h becomes the hash of h followed by the data |
| StatesSymmetricState.SymmetricState.MixKeyhash | smog/src/states/symmetric_state.rs:54-62 | with three outputs present, ck takes the first, the second is mixed into h and the third keys a fresh cipher state; otherwise nothing changes |
| PacketHeader.PacketTypeFromByte | tobacco/src/header.rs:42-53 | accepts a first byte iff its low seven bits are at most 3, which then give back the type's bits; never VersionNegotiation |
| PacketHeader.PacketTypeOfBits | tobacco/src/header.rs:127-134 | the written type bits parse back to the same type, with VersionNegotiation read as Initial |
| PacketHeader.ReadU32 | tobacco/src/header.rs:81-84 | four bytes give the big-endian u32 and the rest; fewer give "buffer too short" |
| PacketHeader.ReadU32Of | tobacco/src/header.rs:81-84 | a written u32 reads back with the same rest |
| PacketHeader.ReadCid | tobacco/src/header.rs:86-102 | an empty rest panics on the length index; a parsed CID is the length byte's count of bytes |
| PacketHeader.ReadCidOf | tobacco/src/header.rs:86-102 | a CID of at most 255 bytes reads back after its length byte |
| PacketHeader.ParseLong | tobacco/src/header.rs:65-122 | empty gives "buffer too short", a bad first byte "invalid packet type", a 5-byte buffer of a valid type panics; InvalidCidLength and VersionNegotiation never come out |
| PacketHeader.ParseLongFields | tobacco/src/header.rs:81-121 | exactly four bytes after the type panic; the type is carried through |
| PacketHeader.LongRoundTrip | tobacco/src/header.rs:124-143 | writing then parsing a long header gives it back when both CIDs fit a byte, with VersionNegotiation read as Initial |
| PacketHeader.LongFieldsRoundTrip | tobacco/src/header.rs:81-121 | the bytes after the type parse back to the header's fields |
| PacketHeader.LongDstRoundTrip | tobacco/src/header.rs:86-121 | the bytes from the destination CID on parse back |
| PacketHeader.LongSrcRoundTrip | tobacco/src/header.rs:95-121 | the bytes from the source CID on parse back |
| PacketHeader.VersionNegotiationReadsAsInitial | tobacco/src/header.rs:127-134 | a written VersionNegotiation header reads back as Initial |
| PacketHeader.ParseLongThenEncode | tobacco/src/header.rs:65-143 | every parsed long header writes back to exactly the parsed bytes |
| PacketHeader.LongFieldsThenEncode | tobacco/src/header.rs:81-142 | the parsed fields write back to the bytes after the type |
| PacketHeader.LongDstThenEncode | tobacco/src/header.rs:86-142 | the parsed fields write back from the destination CID on |
| PacketHeader.LongSrcThenEncode | tobacco/src/header.rs:95-142 | the parsed fields write back from the source CID on |
| PacketHeader.ReadCidUnchecked | tobacco/src/header.rs:169-172 | the short header's CID read panics, instead of failing, on an empty or too short rest |
| PacketHeader.PnLen | tobacco/src/header.rs:168 | the packet number length is 1 to 4 |
| PacketHeader.ParseShort | tobacco/src/header.rs:153-192 | empty gives "buffer too short", a long-form first byte "invalid packet type"; a 3-byte packet number never parses; the key phase is bit 6 and the packet number fits its width |
| PacketHeader.ParseShortPn | tobacco/src/header.rs:174-190 | length 3 is rejected; a parsed packet number fits its length |
| PacketHeader.PnWidth | tobacco/src/header.rs:201-211 | the writer uses 1, 2 or 4 packet-number bytes |
| PacketHeader.ShortFirstByte | tobacco/src/header.rs:196-212 | the written first byte has the short form, the key-phase bit and the length bits the parser reads |
| PacketHeader.ShortPnFits | tobacco/src/header.rs:201-215 | the written packet number fits its width, and below 2^32 it is unchanged |
| PacketHeader.ShortRoundTrip | tobacco/src/header.rs:194-218 | writing then parsing a short header gives it back, with the packet number cut to its low 32 bits |
| PacketHeader.ShortPnRoundTrip | tobacco/src/header.rs:174-215 | the packet-number bytes parse back at the writer's width |
| PacketHeader.ShortRoundTripSmall | tobacco/src/header.rs:246-259 | a packet number below 2^32 round-trips exactly |
| PacketHeader.ShortThreeBytePnPanics | tobacco/src/header.rs:174-191 | a short header announcing a 3-byte packet number hits the parser's unreachable arm |
| PacketHeader.ByteSink.constructor | tobacco/src/header.rs:126 | a new buffer is empty |
| PacketHeader.ByteSink.PutU8 | tobacco/src/header.rs:134 | appends one byte |
| PacketHeader.ByteSink.PutU32 | tobacco/src/header.rs:135 | appends the big-endian bytes of a u32 |
| PacketHeader.ByteSink.PutSlice | tobacco/src/header.rs:137 | appends a slice |
| PacketHeader.WriteLong | tobacco/src/header.rs:124-143 | appends exactly the long header's encoding |
| PacketHeader.WriteShort | tobacco/src/header.rs:194-218 | appends exactly the short header's encoding |
| PacketHeader.LongTryFrom | tobacco/src/header.rs:65-122 | the early-return parser returns the long-header specification's result for every buffer |
| PacketHeader.ShortTryFrom | tobacco/src/header.rs:153-192 | the early-return parser returns the short-header specification's result for every buffer |
| Text.JoinSplit | smog/src/dhpn_der.rs:65 | joining the '+'-pieces rebuilds the string |
| Text.SplitJoin | smog/src/dhpn_der.rs:65 | splitting '+'-free pieces joined by '+' gives them back |
| Text.SplitOnce | smog/src/dhpn.rs:62 | `split_once`: None iff the separator is absent, otherwise a separator-free head and the rest |
| Text.ParseUnsigned | smog/src/dhpn_der.rs:75-78 | Rust's unsigned parse: after dropping one optional leading '+', it succeeds exactly when what is left is a non-empty run of ASCII digits whose value is at most the type's maximum, and the result is that value; an empty string fails |
| Text.ParseDecimal | smog/src/dhpn_der.rs:75-78 | a decimal numeral within range parses to its value |
| Text.ParseDecimalTooLarge | smog/src/dhpn.rs:92 | a decimal numeral above the maximum does not parse |

## Left out

- I/O, async and `tokio`:
  - `execute` in the session trait becomes a function parameter that says whether the step succeeded.
  - The example binaries are not modelled.
- The cryptographic primitives are parameters:
  - BLAKE3 hashing and keyed hashing
  - ChaCha20-Poly1305
  - X25519
  - the generic `Cipher` and `Hash` traits

  Nothing is assumed of them, except where a lemma states a soundness hypothesis.
- The AEAD calls in `state_machines/cipher_state.rs` work on the caller's buffer in place. The model records only whether each call succeeds, not what it writes into the buffer.
- Random keys (`ChaCha20Poly1305::generate_key` in the `state_machines` snapshot) are parameters.
- PatternTokens.LeadingRun: the regex `^[IXKxkNn]+` is modelled by its meaning, a longest leading run of those letters, not by the regex engine.
- PatternTokens.Session: `start` has an empty body and is not modelled.
- PatternFlow.Step: `serde` serialization of `Step` is not modelled.
- PatternFlow.ParseFull: `usize` is taken as 64 bits.
- MachinesCipherState.CipherState.Init: `CipherState::init(k)`, which `state_machines/symmetric_state.rs` calls, is not defined in that snapshot of `state_machines/cipher_state.rs`. It is modelled as the derived default followed by `init_key`.
- ColloidHash.Hkdf models the four identical copies of `hkdf` in `hash.rs` (lines 18-48, 71-101, 122-152 and 175-206) once.
- ColloidHash.Hkdf accepts input key material of any length. `split` calls it with an empty slice.
- StatesCipherState.CipherState.EncryptWithAd requires the nonce to be below `u64::MAX`, where the source's `n + 1` overflows.
- StatesCipherState.CipherState.DecryptWithAd returns None where the source panics in `expect`.
- MachinesSymmetricState.SymmetricState.MixHash requires exactly 32 bytes of data, where the source's `try_into().expect` panics.
- StatesSymmetricState.SymmetricState.Init, StatesSymmetricState.SymmetricState.MixKey and StatesSymmetricState.SymmetricState.MixKeyhash: the source calls the associated function `CipherState::init` through the field and discards its result. This is modelled as what that line evidently does: replacing the cipher state with a freshly initialised one.
- StatesSymmetricState.Latin1Bytes: `str::as_bytes` is modelled for characters below 256 only. The protocol name is ASCII.
- Fallback.ModeDescriptor is modelled with the `psk_delay` field that `fallback.rs` uses. The `ModeDescriptor` of `hspn_der.rs` has a boolean `psk` instead.
- PacketHeader.WriteLong / PacketHeader.WriteShort: the CID length is written as a byte. A CID longer than 255 bytes has its length truncated modulo 256, as `as u8` does. The round trips are stated for CIDs of at most 255 bytes.
- PacketHeader.ParseLong: the `InvalidCidLength` variant is never produced by the source, so it never appears.
- `bytes::BufMut` is modelled by `PacketHeader.ByteSink`, a growable byte sequence.
- PatternTokens.HasFallback: lower-casing is ASCII only. Non-ASCII characters that Rust's `to_lowercase` folds to ASCII letters (such as the Kelvin sign) are not folded.
- ColloidHash.Hkdf requires each output slot to hold exactly 32 bytes. In the source a slot of another length makes `copy_from_slice` panic; that panic is not modelled.

## Findings

| source | as written | input that shows it | evidently intended | confidence | as-written member | corrected member |
|---|---|---|---|---|---|---|
| smog/src/dhpn_der.rs:166-176 | the trailing psk event is emitted when n equals the base order's length | `build_flow(IK, Some(2))`: IK has 2 messages but a base order of length 4, so the psk2 event is lost | emit the trailing psk event when n equals the number of messages, as the comment on line 166 says | not executed | PatternFlow.IkPsk2LosesPsk | PatternFlow.FlowIntendedHasPskEvent |
| smog/src/states/cipher_state.rs:27-35 | `decrypt_with_ad` calls the cipher with nonce n, while `encrypt_with_ad` uses n + 1 | a sound cipher that authenticates the nonce, as ChaCha20-Poly1305 does, and any state (k, n) with n below `u64::MAX`: what the state encrypts, the same state fails to decrypt, and `expect` panics | decrypt with n + 1, as the commented-out line does | not executed | StatesCipherState.AsWrittenRejectsOwnCiphertext | StatesCipherState.IntendedRoundTrip |
