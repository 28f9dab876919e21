# Kenai VPN: verified model of the service contract

This project models the parts of the Kenai VPN client and its privileged Windows service that carry state or cross a
process boundary, and proves what they promise.

* **Wire codec** (`Wire`, `WireCodec`, `ClientWire`). Version 4 of the KVPN frames: nine requests, one response, three
  vault payloads. `Wire` gives every encoder and decoder as a function; `WireCodec` has the buffer that is appended to
  and the cursor that moves, each method proved equal to its function; `ClientWire` is the client's own encoder and
  decoder, with `ClientEngine` for the frames of its connections. The laws are in `WireLayout`, `WireRoundTrip`,
  `WireCanonical`, `WireFraming`, `WireBounds` and `ClientAgreement`.
* **Configuration text** (`ConfigText`, `ClientConfig`). The service prints profiles, the client parses such texts.
  `ConfigLayout` and `ConfigMeaning` say what any text written and any text read means, `ConfigRoundTrip` exactly when
  parsing undoes printing, and `ConfigEndToEnd` that it does for all profiles the service can hold, but for blanks
  around AmneziaWG special packets. `ImportGap` compares what the client and the service accept, and `Reimport`
  follows texts through the client and back into the service.
* **Service** (`Machine`, `Vault`, `Backend`, `Service`). The connection state machine, the encrypted profile vault,
  three engines behind one backend, and the command processor with its frame handler. The processor is a class whose
  methods are proved equal to a transition system; every system call's outcome is an input, so a run ranges over all
  frames, callers and faults, and over tunnels that stop by themselves. `ServiceSteps` treats one request,
  `ServiceAnswers` what each is answered after every run, `ServiceRuns`, `ServiceReplay`, `ServiceStorage` and
  `ServiceTunnels` whole runs, `ServiceScenarios` some runs input by input, `Provisioning` the way from the client's
  import to the service's vault and back, and `ImportLimits` which imports can be stored.
* **Diagnostics archive** (`Crc`, `CrcDivision`, `Zip`). The bitwise CRC-32 and the stored-only ZIP writer, against a
  reader that follows sections 4.3.16, 4.3.12 and 4.3.7 of PKWARE's APPNOTE.TXT.
* **Account** (`Account`, `AccountCalls`, `AccountLaws`). Activation with rollback, sign-out and session restoring,
  over a secure storage and a service in which every call may fail, with or without having taken effect.

`Basics`, `Text`, `Utf8` (RFC 3629), `LittleEndian`, `Base64` (section 4 of RFC 4648), `IpText` (section 2.2 of RFC
4291, sections 4 and 5 of RFC 5952) and `Contracts` hold what the others share; `KnownValues` has values known from
elsewhere. `dafny verify dfyconfig.toml` verifies the whole project; every proof fits a resource limit of 2000000.

## What does not hold

Some things one might expect of the code are false. The model keeps the code as it is, states exactly when each
expectation is met, and shows an input or a run for which it is not:

* Parsing a printed AmneziaWG profile does not give it back when a special packet starts or ends with a blank
  (`ConfigEndToEnd.HeldProfileRoundTrip`; `BlankJunkIsLost`).
* The service refuses some configurations the client takes (`ImportGap.WireGuardGapExactly`, `AmneziaWgGapExactly`;
  `Reimport.HexPrefixRefused`, `MinusZeroRefused`, `ControlPacketRefused`).
* The service reads network texts of 254 and 255 bytes off the wire, but neither it nor the client writes them: such
  an import is never stored, and such a profile never sent back (`ImportLimits.StoredExactly`,
  `Reimport.PrintParseImport`; `ImportLimits.LongImportRefused`).
* A connect whose profile cannot be loaded leaves the machine Connecting for good, and an engine that refuses to stop
  leaves it Disconnecting for good; only a restart of the service helps (`ServiceRuns.WedgedExactly`, `WedgedForever`;
  `ServiceStorage.FirstConnectWedges`, `ServiceScenarios.RefusedDisconnectWedges`).
* A machine that says Disconnected does not mean that nothing runs, and more than one tunnel can run: asking for or
  stopping an engine whose service cannot be opened succeeds as if the engine were gone (`ServiceTunnels.LostExactly`,
  `TwoTunnelsExactly`; `ServiceScenarios.MisledStatusLoses`, `MissedStopsOverlap`).
* A store that answers an error can leave a profile that can be loaded (`Vault.StoreThenLoad`; `FailedStoreCanLoad`).
* A rolled-back activation can leave a profile at the service: one whose deletion failed, or one stored by a call that
  then failed (`AccountLaws.FailedActivation`; `UndeletedStays`, `OrphanStays`).
* Restoring a damaged session, activating again without signing out, whether that succeeds or not, and signing out
  without a provisioner forget handles of profiles that the service still holds (`AccountLaws.RestoreForgets`,
  `ReactivationForgets`, `RollbackForgets`, `SignOutForgets`; `DamagedSessionForgets`, `NewSessionForgets`,
  `FailedAgainForgets`, `IdleSignOutForgets`).

## Model

| member | source | states |
|---|---|---|
| WireRoundTrip.RequestRoundTrip | crates/vpn_contracts/src/lib.rs:327-521 | Whatever request the encoder takes, the decoder gives back unchanged, for all nine operations with their nested profiles. |
| WireRoundTrip.ResponseRoundTrip | crates/vpn_contracts/src/lib.rs:637-735 | Whatever response the encoder takes, the decoder gives back unchanged. |
| WireRoundTrip.ResponseEncodable | crates/vpn_contracts/src/lib.rs:637-672 | The response encoder succeeds if and only if the version is 4 and the request id, the code and any profile id are identifiers. |
| WireRoundTrip.WireGuardPayloadRoundTrip | crates/vpn_contracts/src/lib.rs:528-557 | A WireGuard vault payload that was encoded decodes to the same profile. |
| WireRoundTrip.AmneziaWgPayloadRoundTrip | crates/vpn_contracts/src/lib.rs:564-593 | An AmneziaWG vault payload that was encoded decodes to the same profile. |
| WireRoundTrip.VlessPayloadRoundTrip | crates/vpn_contracts/src/lib.rs:600-629 | A VLESS vault payload that was encoded decodes to the same profile. |
| WireCanonical.RequestCanonical | crates/vpn_contracts/src/lib.rs:408-521 | An accepted request other than a WireGuard or AmneziaWG import re-encodes to the very bytes it was read from. |
| WireCanonical.RequestCanonicalExactly | crates/vpn_contracts/src/lib.rs:1115-1228 | Every accepted request re-encodes to its own bytes if and only if it is not one of those two imports, or its texts are no longer than the encoder allows and its DNS servers are written as the printer writes them. |
| WireCanonical.ResponseCanonical | crates/vpn_contracts/src/lib.rs:680-735 | An accepted response re-encodes to the very bytes it was read from. |
| WireFraming.DeclaredSizeAgrees | crates/vpn_contracts/src/lib.rs:296-319 | The header of every frame whose envelope the decoder accepts declares exactly the length of the frame. |
| WireFraming.ReadFrameExactly | services/windows_vpn_service/src/ipc.rs:75-90 | Reading by header takes a frame off a stream if and only if the stream starts with a frame whose envelope the decoder accepts. |
| WireFraming.PrefixFree | crates/vpn_contracts/src/lib.rs:408-443 | No accepted request frame is a proper prefix of another. |
| WireFraming.StreamSplitsBack | services/windows_vpn_service/src/ipc.rs:75-90 | Any concatenation of accepted frames is cut back into the same frames by the header-then-body loop. |
| WireBounds.RequestSize | crates/vpn_contracts/src/lib.rs:327-400 | The request encoder succeeds exactly for identifiers and valid profiles whose texts fit their length bytes; a frame is at most 32502 bytes, and the error is never "too large". |
| WireBounds.RequestSizeTight | crates/vpn_contracts/src/lib.rs:870-899 | One concrete AmneziaWG import is exactly 32502 bytes long, so the bound cannot be lowered. |
| WireBounds.PayloadSizes | crates/vpn_contracts/src/lib.rs:564-571 | Encoding a vault payload succeeds exactly for the valid profiles whose texts fit their length bytes; none of them is refused for its size. |
| WireLayout.RequestLayout | crates/vpn_contracts/src/lib.rs:327-400 | Every request frame, byte by byte: four letters, the version, the operation's number, the length, and then each field in its place with its own length and the low byte of every number first. |
| WireLayout.ResponseLayout | crates/vpn_contracts/src/lib.rs:637-672 | Every response frame in the same way, with the numbers of the ten phases and negative times in two's complement. |
| WireLayout.PayloadLayout | crates/vpn_contracts/src/lib.rs:528-607 | Every vault payload: the four letters of its kind and the profile as it is sent. |
| KnownValues.VlessKnown | crates/vpn_contracts/src/lib.rs:1217-1228 | Concretely: a VLESS profile is valid, is sent, and is read back. |
| KnownValues.IdentifiersKnown | crates/vpn_contracts/src/lib.rs:820-830 | Concretely: what an identifier may and may not be, up to 64 characters. |
| KnownValues.HostnamesKnown | crates/vpn_contracts/src/lib.rs:1013-1035 | Concretely: what a hostname and its labels may and may not be. |
| IpText.V4Exactly | crates/vpn_contracts/src/lib.rs:1003-1003 | An IPv4 address is read from the text it is printed as, and from no other. |
| IpText.ShortenedExactly | services/windows_vpn_service/src/wireguard_engine.rs:414-459 | The zeros left out of an IPv6 text are the first of the longest runs, if it has two at least. |
| WireCodec.EncodeRequestBytes | crates/vpn_contracts/src/lib.rs:327-400 | Appending to a growing buffer yields exactly the frame, or the error, of the encoding function the round trips are about. |
| WireCodec.EncodeResponseBytes | crates/vpn_contracts/src/lib.rs:637-672 | The same for responses. |
| WireCodec.EncodeWireGuardPayload | crates/vpn_contracts/src/lib.rs:528-536 | The same for the tagged WireGuard payload. |
| WireCodec.EncodeAmneziaWgPayload | crates/vpn_contracts/src/lib.rs:564-571 | The same for the tagged AmneziaWG payload. |
| WireCodec.EncodeVlessPayload | crates/vpn_contracts/src/lib.rs:600-607 | The same for the tagged VLESS payload. |
| WireCodec.DecodeRequestBytes | crates/vpn_contracts/src/lib.rs:408-443 | Moving a cursor over the frame yields exactly the request, or the first error, of the decoding function. |
| WireCodec.DecodeResponseBytes | crates/vpn_contracts/src/lib.rs:680-735 | The same for responses. |
| WireCodec.DecodeWireGuardPayload | crates/vpn_contracts/src/lib.rs:543-557 | The same for the tagged WireGuard payload. |
| WireCodec.DecodeAmneziaWgPayload | crates/vpn_contracts/src/lib.rs:579-593 | The same for the tagged AmneziaWG payload. |
| WireCodec.DecodeVlessPayload | crates/vpn_contracts/src/lib.rs:615-629 | The same for the tagged VLESS payload. |
| WireCodec.PutProfileTo | crates/vpn_contracts/src/lib.rs:840-868 | Appends the bytes of a WireGuard profile after what the buffer held, or reports the first refused field. |
| WireCodec.PutAmneziaWgTo | crates/vpn_contracts/src/lib.rs:870-899 | Appends the bytes of an AmneziaWG profile, or reports the first refused field. |
| WireCodec.PutVlessTo | crates/vpn_contracts/src/lib.rs:901-914 | Appends the bytes of a VLESS profile, or reports the first refused field. |
| WireCodec.PutStringList | crates/vpn_contracts/src/lib.rs:976-983 | Appends a counted list of bounded texts, or reports the first refused one. |
| WireCodec.PutLongTo | crates/vpn_contracts/src/lib.rs:944-955 | Appends a long text with its two length bytes, or refuses an empty, oversized or control-character text. |
| WireCodec.Cursor.StringList | crates/vpn_contracts/src/lib.rs:1137-1143 | Reads a counted list of bounded texts; the cursor ends where the list ends. |
| WireCodec.Cursor.Profile | crates/vpn_contracts/src/lib.rs:1145-1178 | Reads the nine fields of a WireGuard profile in order and stops at the first error. |
| WireCodec.Cursor.AmneziaWg | crates/vpn_contracts/src/lib.rs:1180-1215 | Reads an AmneziaWG profile in order and stops at the first error. |
| WireCodec.Cursor.Vless | crates/vpn_contracts/src/lib.rs:1217-1228 | Reads a VLESS profile in order and stops at the first error. |
| WireCodec.Cursor.Command | crates/vpn_contracts/src/lib.rs:445-521 | Reads the command of an opcode, checking ids and profiles where the source does. |
| ClientWire.DecodeVpnIpcResponse | apps/desktop/lib/src/infrastructure/windows_profile_provisioner.dart:354-420 | The client's cursor accepts a response and yields its fields exactly as the function compared with the service's decoder. |
| ClientWire.BuildProfile | apps/desktop/lib/src/infrastructure/windows_profile_provisioner.dart:170-201 | The client builds exactly the profile bytes the import lemmas are about. |
| ClientWire.BuildAmneziaWg | apps/desktop/lib/src/infrastructure/windows_profile_provisioner.dart:217-269 | The same for AmneziaWG, with its numbers, ranges and special packets. |
| ClientAgreement.DecodersAgree | apps/desktop/lib/src/infrastructure/windows_profile_provisioner.dart:354-420 | For every byte string and every expected identifier, the client accepts a response if and only if the service's decoder does and the id is the expected one; the fields then agree, counters from 2^63 on being read as negative. |
| ClientAgreement.CounterExact | apps/desktop/lib/src/infrastructure/windows_profile_provisioner.dart:442-491 | The client reads an unsigned counter as itself if and only if it is below 2^63, and as a negative number otherwise. |
| ClientAgreement.ImportUnderstood | apps/desktop/lib/src/infrastructure/windows_profile_provisioner.dart:170-201 | The service decodes the client's WireGuard import to the ids and the profile the client meant. |
| ClientAgreement.AmneziaWgImportUnderstood | apps/desktop/lib/src/infrastructure/windows_profile_provisioner.dart:217-269 | The same for AmneziaWG imports. |
| ClientAgreement.VlessImportUnderstood | apps/desktop/lib/src/infrastructure/windows_profile_provisioner.dart:281-296 | The same for VLESS imports. |
| ClientAgreement.DeleteUnderstood | apps/desktop/lib/src/infrastructure/windows_profile_provisioner.dart:203-215 | The same for deletions. |
| ClientEngine.ConnectUnderstood | apps/desktop/lib/src/infrastructure/windows_vpn_engine.dart:94-106 | The service decodes the client's connect to its ids, handle and protocol, without kill switch. |
| ClientEngine.DisconnectUnderstood | apps/desktop/lib/src/infrastructure/windows_vpn_engine.dart:125-128 | The service decodes the client's disconnect to its ids. |
| ClientEngine.QuestionsUnderstood | apps/desktop/lib/src/infrastructure/windows_vpn_engine.dart:144-177 | The service decodes the client's status and statistics requests as such. |
| ConfigText.RenderWireGuard | services/windows_vpn_service/src/wireguard_engine.rs:414-459 | Appending line by line produces exactly the text the round trips are about. |
| ConfigText.RenderAmneziaWg | services/windows_vpn_service/src/amneziawg_engine.rs:218-267 | The same for AmneziaWG, with its loop over the special packets. |
| ConfigLayout.WireGuardShown | services/windows_vpn_service/src/wireguard_engine.rs:414-459 | The text for a WireGuard profile, line by line, with every key, separator and line end. |
| ConfigLayout.AmneziaWgShown | services/windows_vpn_service/src/amneziawg_engine.rs:218-267 | The same for AmneziaWG: its numbers, H values and numbered special packets end the interface section. |
| ClientConfig.WireGuardParse | apps/desktop/lib/src/infrastructure/wireguard_config_parser.dart:60-134 | The loop over the lines, with its section maps and counters, computes the parse the round trips are about, errors included. |
| ClientConfig.AmneziaWgParse | apps/desktop/lib/src/infrastructure/amneziawg_config_parser.dart:54-129 | The loop that sorts lines into AmneziaWG fields and WireGuard lines computes the same parse, errors included. |
| ClientConfig.CollectSpecial | apps/desktop/lib/src/infrastructure/amneziawg_config_parser.dart:54-129 | The special packets I1 to I5 are collected in order up to the first that is missing; one after a gap is an error. |
| ConfigMeaning.WireGuardExactly | apps/desktop/lib/src/infrastructure/wireguard_config_parser.dart:60-134 | For every text and every profile, the parser gives that profile if and only if the text is within the limit, every line is blank, a comment, a header, or a field allowed in the section it stands in, each section is there once, each single field is there as often as it must be, and addresses, DNS servers and networks are the items of all lines of their key in order. |
| ConfigMeaning.FirstProblemReported | apps/desktop/lib/src/infrastructure/wireguard_config_parser.dart:70-97 | The first line that is wrong where it stands decides the error. |
| ConfigMeaning.SecondValueRefused | apps/desktop/lib/src/infrastructure/wireguard_config_parser.dart:136-146 | A second line for a key, the endpoint or the keepalive is refused. |
| ConfigMeaning.IgnoredChangesNothing | apps/desktop/lib/src/infrastructure/wireguard_config_parser.dart:70-74 | A line that is blank or starts with a number sign or a semicolon changes nothing wherever it stands. |
| ConfigMeaning.CsvReads | apps/desktop/lib/src/infrastructure/wireguard_config_parser.dart:148-154 | Several lines of one key are read as one line joined by commas: its pieces without blanks, in order. |
| ConfigMeaning.EndpointExactly | apps/desktop/lib/src/infrastructure/wireguard_config_parser.dart:192-222 | A text is an endpoint if and only if it is an IPv6 address in brackets, or any address or hostname, followed by a colon and a port between 1 and 65535. |
| ConfigMeaning.AmneziaWgExactly | apps/desktop/lib/src/infrastructure/amneziawg_config_parser.dart:54-129 | For every text and every AmneziaWG profile, the parser gives that profile if and only if the text is within the limit, every AmneziaWG line stands in an interface section, is the only one of its key and has an acceptable value, the values are in range, the special packets have no gap, and the other lines are a WireGuard configuration. |
| ConfigMeaning.LinesExactly | apps/desktop/lib/src/infrastructure/wireguard_config_parser.dart:70-70 | A line ends with a carriage return, a line feed, or both; the last one need not end. |
| KnownValues.NumbersKnown | apps/desktop/lib/src/infrastructure/wireguard_config_parser.dart:180-180 | Concretely: how signed and hexadecimal numbers are read. |
| KnownValues.LargeNumbersKnown | apps/desktop/lib/src/infrastructure/wireguard_config_parser.dart:217-217 | Concretely: the 64 ones are read as minus one, and are no number behind a minus sign. |
| KnownValues.Base64Known | services/windows_vpn_service/src/wireguard_engine.rs:414-459 | The examples of RFC 4648 for the text of a key. |
| Base64.DecodeExactly | apps/desktop/lib/src/infrastructure/wireguard_config_parser.dart:156-166 | A text is decoded to the bytes of which it is the encoding, in the standard or the URL-safe alphabet, and in no other case. |
| ConfigRoundTrip.WireGuardRoundTrip | apps/desktop/lib/src/infrastructure/wireguard_config_parser.dart:60-134 | Parsing the printed text of a valid WireGuard profile gives back that profile field by field, DNS servers as printed, if and only if the text is within the parser's limit of 65536 units. |
| ConfigRoundTrip.LegibleParsed | apps/desktop/lib/src/infrastructure/wireguard_config_parser.dart:60-134 | The same for profiles that the service would refuse, as long as the client takes their networks and these have no blank or comma. |
| ConfigRoundTrip.AmneziaWgParsed | apps/desktop/lib/src/infrastructure/amneziawg_config_parser.dart:54-129 | For every valid AmneziaWG profile, what the parser makes of the printed text: the profile with trimmed special packets, or the error, with the exact condition for each. |
| ConfigRoundTrip.LegibleAmneziaWgParsed | apps/desktop/lib/src/infrastructure/amneziawg_config_parser.dart:54-129 | The same for such AmneziaWG profiles, with any characters but C0 controls in the special packets. |
| ConfigRoundTrip.AmneziaWgRoundTrip | services/windows_vpn_service/src/amneziawg_engine.rs:218-267 | Parsing undoes printing if and only if the text is within 65536 units, no H value exceeds its limit, and no special packet starts or ends with a blank. |
| ConfigEndToEnd.HeldProfileRoundTrip | apps/desktop/lib/src/infrastructure/amneziawg_config_parser.dart:54-129 | For every AmneziaWG profile short enough to have come over the wire or out of the vault, parsing undoes printing if and only if no special packet starts or ends with a blank. |
| ConfigEndToEnd.HeldWireGuardRoundTrip | services/windows_vpn_service/src/wireguard_engine.rs:414-459 | For every such WireGuard profile parsing always undoes printing. |
| ConfigEndToEnd.ImportedShort | crates/vpn_contracts/src/lib.rs:1115-1228 | Every profile in a decoded import is that short. |
| ConfigEndToEnd.UnsealedShort | crates/vpn_contracts/src/lib.rs:579-593 | Every AmneziaWG profile decoded from a vault payload is that short. |
| ConfigEndToEnd.BlankJunkIsLost | services/windows_vpn_service/src/amneziawg_engine.rs:218-267 | A concrete profile the service accepts on the wire, whose special packet ends in a blank, is read by the client as another profile. |
| ImportGap.ProfileGapExactly | apps/desktop/lib/src/infrastructure/windows_profile_provisioner.dart:170-201 | Of the client profiles that satisfy the client's own checks and can be written to the wire, the service accepts the import if and only if every prefix length of a network is written with digits and plus signs only; the client also takes blanks, a minus sign and hexadecimal there. Addresses with a zone are outside the domain. |
| ImportGap.WireGuardGapExactly | apps/desktop/lib/src/infrastructure/wireguard_config_parser.dart:168-190 | Of the WireGuard texts the client parses and can write to the wire, the service accepts the import if and only if every prefix length of a network is written with digits and plus signs only. Addresses with a zone are outside the domain. |
| ImportGap.AmneziaWgGapExactly | apps/desktop/lib/src/infrastructure/amneziawg_config_parser.dart:54-129 | The same for AmneziaWG, if and only if in addition no special packet holds a C1 control character. Addresses with a zone are outside the domain. |
| ImportGap.ReceivedNetwork | apps/desktop/lib/src/infrastructure/windows_profile_provisioner.dart:323-352 | Whatever the client's one byte per UTF-16 unit turns a network it accepts into, if the service takes it for a network, it is the one that was sent. |
| Reimport.PrintParseImportWireGuard | apps/desktop/lib/src/infrastructure/windows_profile_provisioner.dart:170-201 | For every WireGuard profile with texts as short as those that come over the wire: printing by the service, parsing and encoding by the client and decoding by the service give it back if and only if no network text is longer than 253 bytes. |
| Reimport.PrintParseImport | apps/desktop/lib/src/infrastructure/windows_profile_provisioner.dart:217-269 | The same for AmneziaWG, if and only if in addition no H value is longer than that, and no special packet starts or ends with a blank. |
| Reimport.OddNetworkRefused | apps/desktop/lib/src/infrastructure/wireguard_config_parser.dart:168-190 | Every network that the client takes, that has no blank or comma, and whose prefix length is not plain stands in some configuration text that the client parses and writes to the wire, and whose import the service refuses. |
| Reimport.HexPrefixRefused | apps/desktop/lib/src/infrastructure/wireguard_config_parser.dart:168-190 | Concretely: a configuration text with the network 1.1.1.1/0x18 is parsed and written by the client, and refused by the service. |
| Reimport.MinusZeroRefused | apps/desktop/lib/src/infrastructure/wireguard_config_parser.dart:168-190 | Concretely: so is one with the network 1.1.1.1/-0. |
| Reimport.ControlPacketRefused | apps/desktop/lib/src/infrastructure/amneziawg_config_parser.dart:54-129 | Concretely: so is an AmneziaWG text with the C1 control character 80 (hexadecimal) in a special packet. |
| Machine.ConnectionStateMachine.BeginConnect | crates/vpn_service_core/src/lib.rs:412-430 | Refuses a blank id or a machine that is not Disconnected; otherwise starts validating the profile. A refused call changes nothing. |
| Machine.ConnectionStateMachine.MarkValidated | crates/vpn_service_core/src/lib.rs:432-438 | Moves from Validating to Connecting, and is refused elsewhere. A refused call changes nothing. |
| Machine.ConnectionStateMachine.MarkConnected | crates/vpn_service_core/src/lib.rs:440-451 | Moves from Connecting or Reconnecting to Connected, recording the kill switch. A refused call changes nothing. |
| Machine.ConnectionStateMachine.BeginReconnect | crates/vpn_service_core/src/lib.rs:453-459 | Moves from Connected to Reconnecting. A refused call changes nothing. |
| Machine.ConnectionStateMachine.BeginDisconnect | crates/vpn_service_core/src/lib.rs:461-473 | Moves from Connected or Reconnecting to Disconnecting; refuses a blank id. A refused call changes nothing. |
| Machine.ConnectionStateMachine.MarkDisconnected | crates/vpn_service_core/src/lib.rs:475-482 | Moves from Disconnecting to the idle state. A refused call changes nothing. |
| Machine.ConnectionStateMachine.ReconcileDisconnected | crates/vpn_service_core/src/lib.rs:484-486 | Returns to the idle state from anywhere. |
| Machine.ConnectionStateMachine.Fail | crates/vpn_service_core/src/lib.rs:488-500 | Enters a failure phase with its code and drops the kill switch; refuses other phases. A refused call changes nothing. |
| Machine.ConnectionStateMachine.ResetFailure | crates/vpn_service_core/src/lib.rs:502-509 | Leaves a failure for the idle state, and is refused elsewhere. A refused call changes nothing. |
| Machine.RunCoherent | crates/vpn_service_core/src/lib.rs:401-509 | After any sequence of public calls: Disconnected is the idle state, an error code is present exactly in a failure, the kill switch is active only around a connection, and every connection phase names a profile. |
| Machine.ReachableExactly | crates/vpn_service_core/src/lib.rs:401-509 | The coherent states are exactly the ones some sequence of calls reaches. |
| Machine.FollowsArrows | crates/vpn_service_core/src/lib.rs:401-509 | For every coherent state and every call, the new state is exactly what the diagram of the machine says: the arrow from the phase for this call, and which of profile, kill switch and error code it writes; without an arrow, or without the ids, nothing changes. |
| Vault.RandomHandle | services/windows_vpn_service/src/profile_vault.rs:307-331 | The byte loop yields the prefix and the lower-case hexadecimal digits of the 16 random bytes. |
| Vault.GeneratedHandle | services/windows_vpn_service/src/profile_vault.rs:333-340 | Every generated handle satisfies the handle check and is its own file name. |
| Vault.HandleExactly | services/windows_vpn_service/src/profile_vault.rs:333-340 | A text is a handle if and only if it is one of the three prefixes and 32 hexadecimal digits. |
| Vault.DigitsSayBytes | services/windows_vpn_service/src/profile_vault.rs:325-329 | Two by two, the digits of a generated handle are the random bytes. |
| Vault.SameFile | services/windows_vpn_service/src/profile_vault.rs:262-267 | Two handles name the same file if and only if they differ at most in upper and lower case. |
| Vault.DpapiProfileVault.StoreEncrypted | services/windows_vpn_service/src/profile_vault.rs:229-260 | The bounded retry loop creates the file, or reports the error, as the recursive specification does. |
| Vault.DpapiProfileVault.StoreWireGuard | services/windows_vpn_service/src/profile_vault.rs:60-93 | Stores a sealed payload under a new handle, or reports the error of the step that failed. |
| Vault.DpapiProfileVault.StoreAmneziaWg | services/windows_vpn_service/src/profile_vault.rs:108-140 | The same for AmneziaWG. |
| Vault.DpapiProfileVault.StoreVless | services/windows_vpn_service/src/profile_vault.rs:158-164 | The same for VLESS. |
| Vault.DpapiProfileVault.LoadWireGuard | services/windows_vpn_service/src/profile_vault.rs:95-106 | Reads, unseals and decodes; any handle prefix will do. |
| Vault.DpapiProfileVault.LoadAmneziaWg | services/windows_vpn_service/src/profile_vault.rs:142-156 | The same, but only for handles of its own prefix. |
| Vault.DpapiProfileVault.LoadVless | services/windows_vpn_service/src/profile_vault.rs:166-176 | The same, but only for handles of its own prefix. |
| Vault.DpapiProfileVault.Delete | services/windows_vpn_service/src/profile_vault.rs:178-187 | Removes the file of a valid handle, or reports why not, and touches no other file. |
| Vault.CreateFileAdds | services/windows_vpn_service/src/profile_vault.rs:229-260 | Storing adds at most one file, under a fresh name of the right prefix; when it fails, that file is torn, or whole exactly if a failed write was complete and its discard failed; no file is ever overwritten. |
| Vault.HistoryRefines | services/windows_vpn_service/src/profile_vault.rs:60-260 | After any history of stores and deletes with any faults and colliding handles, the files are the sealed payloads of a typed map, made of the held profiles and of those failed stores left whole, and torn remains. |
| Vault.LoadExactly | services/windows_vpn_service/src/profile_vault.rs:95-176 | After any such history, a fault-free load of a kind succeeds with a profile if and only if the handle stands for that profile, of that kind, held or left whole by a failed store, and not deleted since. |
| Vault.StoreThenLoad | services/windows_vpn_service/src/profile_vault.rs:60-93 | A successful store adds its profile under a handle that was free and changes nothing else. A failed one gives out no handle, and leaves all that can be loaded as it was if and only if no failed write left the whole file. |
| Vault.FailedStoreCanLoad | services/windows_vpn_service/src/profile_vault.rs:78-85 | Concretely: when synchronising and discarding both fail, the store answers an error and the profile can be loaded. |
| Vault.TagsDiffer | crates/vpn_contracts/src/lib.rs:528-629 | The payload of one kind is never decoded as another. |
| Backend.TunnelEngine.Cleanup | services/windows_vpn_service/src/amneziawg_engine.rs:135-153 | A stop stops the engine, or takes a service it cannot open for gone and succeeds, or fails; it never starts anything. |
| Backend.TunnelEngine.Connect | services/windows_vpn_service/src/amneziawg_engine.rs:177-197 | Refuses the kill switch and invalid profiles first, cleans up, starts, and cleans up again when starting failed. |
| Backend.WindowsVpnBackend.Disconnect | services/windows_vpn_service/src/windows_backend.rs:34-40 | Tells all three engines to stop whatever the others answer, forgets the active one, and reports the first error. |
| Backend.WindowsVpnBackend.ConnectWireGuard | services/windows_vpn_service/src/windows_backend.rs:44-54 | Stops everything first, and makes its engine active only when it started. |
| Backend.WindowsVpnBackend.ConnectAmneziaWg | services/windows_vpn_service/src/windows_backend.rs:55-65 | Stops everything first, and makes its engine active only when it started. |
| Backend.WindowsVpnBackend.ConnectVless | services/windows_vpn_service/src/windows_backend.rs:66-76 | Stops everything first, and makes its engine active only when it started. |
| Backend.WindowsVpnBackend.TunnelUp | services/windows_vpn_service/src/windows_backend.rs:80-87 | Asks the active engine only; without one the answer is no. |
| Backend.WindowsVpnBackend.Statistics | services/windows_vpn_service/src/windows_backend.rs:88-95 | Asks the active engine only; without one the engine is unavailable. |
| Backend.DisconnectRuns | services/windows_vpn_service/src/windows_backend.rs:34-40 | After a disconnect an engine runs if and only if it ran and its stop spared it; no engine is active; success means that no stop was reported as failed. |
| Backend.ConnectRuns | services/windows_vpn_service/src/windows_backend.rs:44-76 | After a connect an engine runs if and only if it is the one asked for and was launched, or it ran and everything spared it. On success the engine asked for runs, is active and had no kill switch; otherwise none is active. |
| Service.ServiceCommandProcessor.Remember | crates/vpn_service_core/src/lib.rs:251-259 | Drops the oldest id of a full window from queue and set, and adds the new one to both. |
| Service.ServiceCommandProcessor.ConnectRequest | crates/vpn_service_core/src/lib.rs:261-295 | Recovers from a failure, begins, loads the profile, stops and starts engines and records the answer, leaving the machine where the first error found it. |
| Service.ServiceCommandProcessor.DisconnectRequest | crates/vpn_service_core/src/lib.rs:297-311 | Stops all engines and returns to idle, from a failure or a connection, leaving the machine where the first error found it. |
| Service.ServiceCommandProcessor.ReconcileStatus | crates/vpn_service_core/src/lib.rs:340-360 | Compares a connection with its engine and records a tunnel that stopped or could not be asked. |
| Service.ServiceCommandProcessor.ImportProfile | crates/vpn_service_core/src/lib.rs:313-338 | Checks the id and the profile, stores it, and checks the handle. |
| Service.ServiceCommandProcessor.Process | crates/vpn_service_core/src/lib.rs:186-249 | Refuses strangers, then repeated ids, remembers the id, and dispatches. |
| Service.ServiceCommandProcessor.Dispatch | crates/vpn_service_core/src/lib.rs:198-248 | Runs one command and reports the state after it, with the new handle in place of the profile id after an import. |
| Service.ProcessFrame | services/windows_vpn_service/src/ipc.rs:93-114 | Turns any byte string into the response of the transition system, errors reduced to their safe codes. |
| Service.HandleOne | services/windows_vpn_service/src/ipc.rs:70-91 | One connection: nothing for a stream cut short, an error response for a bad header, otherwise the response to the frame. |
| ServiceSteps.DecodedIds | crates/vpn_contracts/src/lib.rs:445-521 | Every id in a decoded request is an identifier, and every profile is valid. |
| ServiceSteps.ConnectSteps | crates/vpn_service_core/src/lib.rs:261-295 | From every state a run can reach: a busy machine refuses; a profile that cannot be loaded leaves the machine Connecting; otherwise it ends Connected with the engine asked for running and active, or in a failure. |
| ServiceSteps.DisconnectSteps | crates/vpn_service_core/src/lib.rs:297-311 | From every such state: refused, or all engines are told to stop; then idle if no stop failed, and otherwise a connection is left Disconnecting and a failure as it was. |
| ServiceSteps.StatusSteps | crates/vpn_service_core/src/lib.rs:340-360 | A status request never touches engines or files, and changes only a Connected machine whose engine does not confirm. |
| ServiceSteps.ImportSteps | crates/vpn_service_core/src/lib.rs:313-338 | An import changes the files only, answers what the vault answered, and its handle fits in a response. |
| ServiceSteps.Executes | crates/vpn_service_core/src/lib.rs:186-249 | Every command keeps the state sound, ends in a sendable answer or one of four errors, never in an empty-id or failure-phase error, and leaves the settled phases exactly in the two ways named below. |
| ServiceRuns.RunSound | crates/vpn_service_core/src/lib.rs:186-360 | After every run of arbitrary frames, callers, faults and tunnels that stop by themselves: the machine is coherent and without kill switch, its profile id is an identifier, and a connection has an active engine. |
| ServiceRuns.ConnectedEngine | crates/vpn_service_core/src/lib.rs:261-295 | While the machine says Connected, the active engine is that of the last request answered with "CONNECTED". |
| ServiceRuns.DisconnectedExactly | crates/vpn_service_core/src/lib.rs:297-311 | After an answer of "DISCONNECTED" the machine is idle and no engine active, and an engine still runs if and only if it ran before and its stop was missed. |
| ServiceRuns.EveryAnswerArrives | services/windows_vpn_service/src/ipc.rs:93-137 | After every run, the response to any byte string is encodable and decodes back to itself. |
| ServiceRuns.EveryConnectionAnswered | services/windows_vpn_service/src/ipc.rs:70-91 | After every run, a caller who sends a whole frame or a bad header gets bytes that decode, and one who sends less gets nothing. |
| ServiceRuns.OthersChangeNothing | services/windows_vpn_service/src/ipc.rs:93-114 | Frames that do not decode, strangers and repeated requests change nothing and get exactly their own code. |
| ServiceRuns.WedgedExactly | crates/vpn_service_core/src/lib.rs:261-311 | After a run the machine is outside Disconnected, Connected and the failures if and only if at some point a connect could not load its profile or an engine refused to stop while a connection was being closed. |
| ServiceRuns.WedgedForever | crates/vpn_service_core/src/lib.rs:261-360 | From then on no input of any kind changes the machine again. |
| ServiceReplay.WindowExactly | crates/vpn_service_core/src/lib.rs:251-259 | After every run the queue holds exactly the last 256 accepted ids in order and without repetition, and the set holds the same ids. |
| ServiceReplay.RefusedExactly | crates/vpn_service_core/src/lib.rs:186-197 | A request is refused as a duplicate if and only if it is authorised and its id is among the last 256 accepted; as unauthorised if and only if its caller is not allowed. |
| ServiceReplay.RefusedChangesNothing | crates/vpn_service_core/src/lib.rs:186-197 | A refused request leaves the whole state as it was. |
| ServiceReplay.RepeatsFarApart | crates/vpn_service_core/src/lib.rs:251-259 | An id is accepted twice only more than 256 acceptances apart. |
| ServiceStorage.RunFiles | crates/vpn_service_core/src/lib.rs:313-338 | The files of a running service are what the imports and deletions of its run made of an empty vault. |
| ServiceStorage.ConnectWedgesExactly | crates/vpn_service_core/src/lib.rs:261-283 | With a fault-free vault, a connect that is heard at rest wedges the machine if and only if its handle stands for no profile of its protocol, held or left over. |
| ServiceStorage.ConnectSucceedsExactly | crates/vpn_service_core/src/lib.rs:261-295 | With a fault-free vault, a connect that is heard at rest is answered with "CONNECTED" if and only if its handle stands for a profile of its protocol, held or left over, it asks for no kill switch, and no call of the backend is reported as failed. |
| ServiceStorage.FirstConnectWedges | crates/vpn_service_core/src/lib.rs:261-283 | Concretely: a connect with any handle as the very first request leaves the machine Connecting whatever follows. |
| ServiceStorage.WedgedIsBusy | crates/vpn_service_core/src/lib.rs:412-430 | A wedged machine answers "BUSY" to every connect and disconnect it hears and leaves the engines alone. |
| ServiceTunnels.EngineRunsExactly | services/windows_vpn_service/src/windows_backend.rs:34-76 | After a run an engine runs if and only if some connect started it and it outlived every later input: it did not stop by itself, and every stop meant for it spared it. |
| ServiceTunnels.TwoTunnelsExactly | services/windows_vpn_service/src/windows_backend.rs:34-76 | After a run two engines both run if and only if at some input one was started past the other, whose stop was missed, and both outlived all later inputs. |
| ServiceTunnels.OneTunnel | services/windows_vpn_service/src/windows_backend.rs:34-76 | If no stop of a run takes a running engine for gone, at most one engine runs after it. |
| ServiceTunnels.BesideActiveExactly | services/windows_vpn_service/src/windows_backend.rs:34-76 | An engine runs besides the active one if and only if the connect that made the other active missed it, it has not stopped, and nothing was told to stop since. |
| ServiceTunnels.OnlyTheActive | services/windows_vpn_service/src/windows_backend.rs:34-76 | If no stop is missed, the active engine is the only one that can run, and while the machine says Connected only the engine of the protocol connected last can. |
| ServiceTunnels.LostExactly | crates/vpn_service_core/src/lib.rs:297-360 | After a run a tunnel runs although the machine says Disconnected if and only if some status request was told that it is gone, or some disconnect missed it, and since then the tunnels have not all stopped by themselves and no connect was heard. |
| ServiceScenarios.FirstTunnel | crates/vpn_service_core/src/lib.rs:261-295 | Concretely: an import and a connect bring the service to Connected with the WireGuard engine running and active. |
| ServiceScenarios.RefusedDisconnectWedges | crates/vpn_service_core/src/lib.rs:297-311 | Concretely: an import, a connect and a disconnect whose stop fails leave the machine Disconnecting whatever follows. |
| ServiceScenarios.MisledStatusLoses | services/windows_vpn_service/src/wireguard_engine.rs:187-197 | Concretely: an import, a connect and a status request that cannot open the service of the engine leave a running tunnel behind a machine that says Disconnected. |
| ServiceScenarios.MissedStopsOverlap | services/windows_vpn_service/src/amneziawg_engine.rs:135-153 | Concretely: two imports, a connect, a disconnect and a connect whose stops miss the first tunnel leave two engines running. |
| ServiceAnswers.ConnectAnswer | crates/vpn_service_core/src/lib.rs:261-295 | After every run, a connect that is heard is refused while the machine is busy; answered with the reason, and left Connecting, if its profile cannot be loaded; and otherwise answered Connected or with the first failure in the order of the calls, each in its own phase and code. Answer and machine name the profile asked for, and the engine of its protocol runs. |
| ServiceAnswers.DisconnectAnswer | crates/vpn_service_core/src/lib.rs:297-311 | After every run, a disconnect that is heard is refused without a connection or a failure, makes the machine idle if no stop fails, and otherwise leaves a connection Disconnecting with its profile. |
| ServiceAnswers.StatusAnswer | crates/vpn_service_core/src/lib.rs:340-360 | After every run, a status request reports the machine as it is; a Connected one first asks the active engine, becomes idle if the tunnel is gone, and fails with the engine's failure. |
| ServiceAnswers.StatisticsAnswer | crates/vpn_service_core/src/lib.rs:198-249 | After every run, statistics are the counts of the active engine; they and diagnostics report the machine as it is and change nothing. |
| ServiceAnswers.ImportAnswer | crates/vpn_service_core/src/lib.rs:313-338 | After every run, an import that is heard stores the payload under its kind's prefix and the first free random digits, which the answer names, or is refused with the reason; then no file is new but one whose write and removal both failed. Connections are not touched. |
| ServiceAnswers.DeleteAnswer | services/windows_vpn_service/src/profile_vault.rs:178-187 | After every run, a delete that is heard is answered with "PROFILE_DELETED", and takes out exactly that file, if and only if the handle is valid, its file is there, whatever it holds, and removing works; otherwise it changes nothing and says which of the three it was. |
| ServiceAnswers.DeletedModel | services/windows_vpn_service/src/profile_vault.rs:178-187 | Such a delete takes the profile of its handle, held or left over, and no other one; any other delete takes none. |
| ServiceAnswers.OtherAnswer | services/windows_vpn_service/src/ipc.rs:93-114 | A frame that does not decode, one from a caller that is not local, not signed in, or not in the one allowed session, and one with a remembered id change nothing and are refused with their own code; all others are heard. |
| ServiceAnswers.ConnectionAnswer | services/windows_vpn_service/src/ipc.rs:70-91 | After every run, the bytes sent back decode to the response to the frame that the stream starts with, or to a refusal of its header; a stream cut short gets none. |
| ServiceAnswers.ProfileNamed | crates/vpn_service_core/src/lib.rs:412-430 | After every run, an idle machine names no profile, and any other machine, connected, failed or stuck, the profile of the last connect that was heard at rest. |
| Provisioning.ClientReadsAnswer | apps/desktop/lib/src/infrastructure/windows_profile_provisioner.dart:354-420 | After every run, the client decodes the service's answer to each frame it sent, with all fields as the service meant them. |
| Provisioning.ImportedIsHeld | crates/vpn_service_core/src/lib.rs:313-338 | An import answered with "PROFILE_STORED" holds the profile under the handle in the answer, which was free, and leaves all others as they were. Any other answer holds nothing new, and leaves all that can be loaded as it was if and only if no failed write left the whole file. |
| Provisioning.ClientImportIsHeld | apps/desktop/lib/src/infrastructure/windows_profile_provisioner.dart:102-114 | The whole way: the handle the client reads from a "PROFILE_STORED" answer stands for the WireGuard profile it imported. |
| Provisioning.ClientAmneziaWgImportIsHeld | apps/desktop/lib/src/infrastructure/windows_profile_provisioner.dart:116-129 | The same for an AmneziaWG profile. |
| Provisioning.ClientVlessImportIsHeld | apps/desktop/lib/src/infrastructure/windows_profile_provisioner.dart:131-144 | The same for a VLESS profile. |
| Provisioning.DeletedIsGone | apps/desktop/lib/src/infrastructure/windows_profile_provisioner.dart:146-159 | A profile whose deletion was answered with "PROFILE_DELETED" or "PROFILE_NOT_FOUND", the two answers the client takes for success, can be loaded no more. |
| ImportLimits.StoredExactly | crates/vpn_service_core/src/lib.rs:313-338 | After every run, an import is answered with "PROFILE_STORED" if and only if no network text or H value is longer than 253 bytes, sealing works, and before any call fails an attempt to create the file draws a free name, opens and writes it. |
| ImportLimits.LongImportRefused | crates/vpn_contracts/src/lib.rs:976-993 | Concretely: a frame with a network of 254 bytes is read as a valid import, and is not stored after any run and whatever the vault's calls do. |
| Crc.ComputeCrc32 | packages/kenai_core/lib/src/application/diagnostics.dart:344-353 | The nested loops compute the register function the detection lemmas are about. |
| Crc.ByteLoopIsDivision | packages/kenai_core/lib/src/application/diagnostics.dart:344-353 | The byte-wise loop computes the same remainder as feeding the message bit by bit. |
| Crc.BurstDetected | packages/kenai_core/lib/src/application/diagnostics.dart:344-353 | Two messages of any length whose bits differ, but only within 32 in a row, have different checksums. |
| Crc.ChangeDetected | packages/kenai_core/lib/src/application/diagnostics.dart:344-353 | A change of one byte, or of any bytes among four neighbours, always changes the checksum. |
| Crc.EscapesExactly | packages/kenai_core/lib/src/application/diagnostics.dart:344-353 | A change within 33 bits in a row leaves the checksum as it was if and only if it adds the polynomial there. |
| Crc.FiveBytesCanEscape | packages/kenai_core/lib/src/application/diagnostics.dart:344-353 | Concretely: two five-byte messages share a checksum, so four neighbours is the most. |
| CrcDivision.ChecksumIsRemainder | packages/kenai_core/lib/src/application/diagnostics.dart:344-353 | For messages of every length, the checksum is the complement of the remainder that long division by the generator leaves of the message with 32 zeros appended and its first 32 bits complemented. |
| CrcDivision.CheckValue | packages/kenai_core/lib/src/application/diagnostics.dart:344-353 | Concretely: the checksum of the digits from 1 to 9 is cbf43926 (hexadecimal). |
| CrcDivision.ZeroChecksum | packages/kenai_core/lib/src/application/diagnostics.dart:344-353 | Concretely: the checksum of a zero byte is d202ef8d (hexadecimal). |
| Zip.Encode | packages/kenai_core/lib/src/application/diagnostics.dart:268-330 | The loop over the files, with its two buffers and its running offset, yields exactly the archive the reader lemmas are about. |
| Zip.Headers | packages/kenai_core/lib/src/application/diagnostics.dart:273-318 | The local header and the directory entry of one file, each number cut to its two or four bytes. |
| KnownValues.ArchiveRows | packages/kenai_core/lib/src/application/diagnostics.dart:273-326 | Every number of every header, in order and with its width: signatures, versions, flag, date, checksum, sizes and offset. |
| KnownValues.Utf8Known | packages/kenai_core/lib/src/application/diagnostics.dart:269-269 | Concretely: characters of one to four bytes in a file name. |
| Zip.ArchiveReadsBack | packages/kenai_core/lib/src/application/diagnostics.dart:268-330 | For all files within the 16 and 32 bit limits, a reader that goes from the end record through the directory to each local header recovers exactly the names and the bytes. |
| Zip.Untampered | packages/kenai_core/lib/src/application/diagnostics.dart:268-330 | The archive is its local records with each file's bytes in place: putting the same bytes there gives the archive back. |
| Zip.TamperingRefused | packages/kenai_core/lib/src/application/diagnostics.dart:268-353 | If bytes of one file are changed in the archive, but only among four neighbours, the reader refuses the archive. |
| Account.SecureAccountRepository.WriteCredential | packages/kenai_core/lib/src/application/secure_account_repository.dart:178-184 | Deletes the key for a missing or empty credential, and writes it otherwise. |
| Account.SecureAccountRepository.ClearAccountData | packages/kenai_core/lib/src/application/secure_account_repository.dart:163-176 | Deletes the eight keys in order and stops at the first failure. |
| Account.SecureAccountRepository.ActivateWireGuard | packages/kenai_core/lib/src/application/secure_account_repository.dart:61-73 | Provisions and keeps the handle, or stores the text, and deletes the other; stops at the first failure. |
| Account.SecureAccountRepository.ActivateProtocol | packages/kenai_core/lib/src/application/secure_account_repository.dart:74-101 | The same for the other two protocols, deleting or writing the text first. |
| Account.SecureAccountRepository.Attempt | packages/kenai_core/lib/src/application/secure_account_repository.dart:56-103 | The calls of the try block, in order, up to the first failure. |
| Account.SecureAccountRepository.Activate | packages/kenai_core/lib/src/application/secure_account_repository.dart:46-128 | The attempt, and after a failure the deletion of the drawn handles with their errors ignored, then the clearing. |
| Account.SecureAccountRepository.SignOut | packages/kenai_core/lib/src/application/secure_account_repository.dart:146-161 | Reads and deletes the three profiles, then clears; stops at the first failure. |
| Account.SecureAccountRepository.RestoreSession | packages/kenai_core/lib/src/application/secure_account_repository.dart:131-140 | Clears everything when the stored session cannot be decoded. |
| AccountLaws.FailedActivation | packages/kenai_core/lib/src/application/secure_account_repository.dart:46-128 | After an activation that threw anywhere, from any storage: the service holds exactly the profiles of before if and only if every deletion of the rollback took effect and the failing call was no provisioning that took effect; the storage is empty if and only if the clearing got through to the last key that was there. |
| AccountLaws.AllOrNothing | packages/kenai_core/lib/src/application/secure_account_repository.dart:46-128 | When nothing fails during the rollback, a failed activation leaves no account data, and no new profile if and only if the failing call was no provisioning that took effect. |
| AccountLaws.OrphanStays | packages/kenai_core/lib/src/application/secure_account_repository.dart:62-68 | Concretely: a provisioning call that stores the profile and then throws leaves it at the service. |
| AccountLaws.UndeletedStays | packages/kenai_core/lib/src/application/secure_account_repository.dart:104-112 | Concretely: when saving the handle fails and then deleting the profile fails, the profile stays at the service. |
| AccountLaws.ReturnedActivation | packages/kenai_core/lib/src/application/secure_account_repository.dart:46-103 | After an activation that returned, from any storage: key and session are there, and of each protocol either the stored handle of a new profile, or the text, or neither; never two of them. |
| AccountLaws.SessionWrittenLast | packages/kenai_core/lib/src/application/secure_account_repository.dart:102-103 | Wherever an activation is cut short before its last call, the stored session is still the one from before, if any. |
| AccountLaws.SignOutRemembers | packages/kenai_core/lib/src/application/secure_account_repository.dart:146-176 | A sign-out that fails anywhere never forgets the handle of a profile that still exists. |
| AccountLaws.SignOutRetryable | packages/kenai_core/lib/src/application/secure_account_repository.dart:146-176 | After any number of failed sign-outs, one that meets no fault deletes exactly the profiles whose handles were known at first, and all account data. |
| AccountLaws.SignOutForgets | packages/kenai_core/lib/src/application/secure_account_repository.dart:146-176 | When no call fails, signing out deletes all account data, and forgets the handle of a profile that is still held if and only if there is no provisioner and a known profile is held; with a provisioner exactly the known profiles are deleted. |
| AccountLaws.IdleSignOutForgets | packages/kenai_core/lib/src/application/secure_account_repository.dart:146-161 | Concretely: signing out without a provisioner forgets the profile of the stored handle. |
| AccountLaws.RestoreForgets | packages/kenai_core/lib/src/application/secure_account_repository.dart:131-140 | When no call fails, restoring forgets the handle of a profile that is still held if and only if the session is there, cannot be decoded, and a known profile is held; the known handles stay as they are if and only if the session decodes or is missing, or none is known. |
| AccountLaws.DamagedSessionForgets | packages/kenai_core/lib/src/application/secure_account_repository.dart:131-140 | Concretely: a damaged session and one stored handle, whose profile the service goes on holding. |
| AccountLaws.ReactivationForgets | packages/kenai_core/lib/src/application/secure_account_repository.dart:46-103 | Activating over an old session keeps every old profile at the service under none of the stored handles: it forgets one if and only if a known profile was held. |
| AccountLaws.NewSessionForgets | packages/kenai_core/lib/src/application/secure_account_repository.dart:46-103 | Concretely: activating again forgets the profile whose handle was stored before. |
| AccountLaws.RollbackForgets | packages/kenai_core/lib/src/application/secure_account_repository.dart:46-128 | An activation that throws over an old session and is rolled back without a fault forgets the handle of a profile that is still held if and only if a known profile was held, or the profile left by the failing call has a handle that was stored before. |
| AccountLaws.FailedAgainForgets | packages/kenai_core/lib/src/application/secure_account_repository.dart:46-128 | Concretely: an activation whose very first call fails forgets the profile of the handle stored before. |
| AccountCalls.ProvisionedCalls | packages/kenai_core/lib/src/application/secure_account_repository.dart:56-103 | With a provisioner and all three credentials: the eleven calls in order. |
| AccountCalls.PlainCalls | packages/kenai_core/lib/src/application/secure_account_repository.dart:56-103 | Without a provisioner: the eight calls in order, an empty credential being deleted. |
| AccountCalls.NothingIssued | packages/kenai_core/lib/src/application/secure_account_repository.dart:56-103 | Without credentials: the eight calls in order, deleting texts and handles. |
| AccountCalls.ActivatesExactly | packages/kenai_core/lib/src/application/secure_account_repository.dart:46-128 | From any world, with and without a provisioner: an activation returns if and only if none of its calls throws and the handles drawn are new and different. |
| AccountCalls.AllThreeActivate | packages/kenai_core/lib/src/application/secure_account_repository.dart:46-103 | Concretely: from nothing, all three profiles are provisioned, and their handles, the key and the session are stored. |
| AccountCalls.RollbackLeaves | packages/kenai_core/lib/src/application/secure_account_repository.dart:104-127 | Exactly which drawn profiles a rollback leaves: one deletion for each, in the order they were drawn. |
| AccountCalls.SignOutStops | packages/kenai_core/lib/src/application/secure_account_repository.dart:146-161 | Where a sign-out stops decides exactly which profiles are gone: they are deleted in the order WireGuard, AmneziaWG, VLESS, and nothing is cleared before. |
| AccountCalls.ClearedInOrder | packages/kenai_core/lib/src/application/secure_account_repository.dart:163-176 | A clearing that stops has deleted exactly the keys before, the handles being the last of all. |

## Left out

- Named pipes, access control lists, session lookup, the data protection calls, job objects, process start, driver and
  payload checks: each is an outcome (success or failure, with or without effect) of the environment. Sealing and
  unsealing are inverses, and a file that exists is never created again.
- The Xray engine lets go of a process whose stop failed, and the process's job then ends it; here such a stop is just
  one that failed, which may or may not have stopped the engine.
- Asynchronous scheduling: the service handles one connection at a time, as its accept loop does.
- Standard-library text forms of addresses: both sides read what Rust reads and print what Rust prints. IPv6 addresses
  with a zone, which Dart takes when the machine knows the zone and Rust never takes, are not part of the model.
- The percent-encoded padding that the client's Base64 decoder also takes.
- Dart strings that are not valid Unicode (lone surrogates).
- Wiping of secrets and redacted debug output.
- Zip.ArchiveReadsBack: only within the 16 and 32 bit limits; beyond them the writer silently cuts its numbers.
- Crc.ChangeDetected: about changes in place, not insertions or deletions.
- The reader in `Zip` takes stored UTF-8 entries only and no ZIP64 records, which the writer never makes.
- Account.SecureAccountRepository.Provision: the service draws the handle, and a handle that is already taken is an
  error of the call, as the vault never overwrites a file. The text given to the provisioner is not parsed here;
  `ClientConfig` covers that, and a parse error is a call that fails without effect.
- The session's JSON form: a stored session either decodes or does not.
- Xray's JSON configuration, the VLESS URI parser, statistics parsing, the HTTP client, settings, log redaction, all
  screens, mocks, the installer and the scripts.
