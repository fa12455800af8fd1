# A verified model of capki

Capki is a small certificate authority: a root kept under a passphrase, one intermediate that signs
leaf certificates, revocation lists, a request workflow, sessions and API tokens, a trust store for
outbound TLS, and a log forwarder. This project models those parts in Dafny and proves what their users
rely on. `dafny verify dfyconfig.toml` checks everything.

## How it is built

**The certificate authority** is one state machine: the tables (CA rows, certificates, revocations,
list issuances, requests), the process memory (the key vault) and the master-key file.

- `X509`, `Crypto`, `Numerals`, `CertPolicy`: certificates and lists as records with the contents the
  engine gives them; ideal signatures, envelopes and key derivation; hexadecimal serials; the checks on
  a signing request. `X509.ChainValid` and `X509.CrlUsable` are a relying party's checks, written from
  sections 6.1 and 6.3.3 of RFC 5280 and not from the code.
- `CaState`: for every service call, the function from the old tables and vault to the new ones.
- `CaServices`: the services in their own form - objects with fields, loops, one commit after another -
  each method proved to do exactly what its function in `CaState` says.
- `CaProcess`: a call on those objects is one event of a run.
- `CaMachine`: runs over events. An event is a whole call, or a call that dies after its first k commits
  followed by a restart.
- `CaInvariant`, `CaHistory`: what every commit keeps, and what a run never undoes.
- `CaTheorems`, `CaLists`, `CaOperations`, `CaWorkflows`, `CaNotifications`, `CaTimers`: the results, each for
  every run, crashes included.
- `CaExamples`: concrete runs, for every configuration, where a condition of a theorem is needed.

**Sessions and tokens** (`Sessions`, `Tokens`) are classes over their tables; what a stored row says is
proved equivalent to a rule over the history of calls. **The trust store** (`PemBundle`, `TrustStore`)
and **the role-map text** (`RoleMap`) rest on string lemmas in `Text`. **The log queue** (`LogQueue`) is a
machine of small steps with any number of threads and both locks.

## What holds, and where the code does less than it says

- *Following a certificate's list pointer* reaches a list signed by the certificate's own issuer key that
  shows the serial exactly when the certificate is REVOKED, except for revocations that are *overlooked*:
  the process died between the two commits of the revocation (or of the renewal that superseded the
  certificate), and no list of the intermediate has gone out since. This is an if-and-only-if over all
  runs (`CaLists.MissedExactly`), as is the one for a CA without any list (`CaLists.UnlistedExactly`), and
  `CaLists.CutOffExactly` and `CaLists.BornExactly` say which calls these are. The next refresh that gets as
  far as the CA while its key is there repairs it, and it stays repaired while calls run to their end
  (`CaLists.RefreshRestores`). The intermediate's key is always there; the root's only while unlocked.
- *An approval* issues the certificate in one commit and links it in the next. A process that dies in
  between leaves the certificate and a pending request, and the next approval issues a second one:
  `CaExamples.CrashIssuesTwice` is the run, `CaWorkflows.ReissuedExactly` the exact condition.
- *An owner is told of an expiry* again exactly when every job that told them before died between its
  delivery and its commit (`CaNotifications.ReachedAgainExactly`); a recorded success is never repeated.
- *Users who are not stored.* By the signatures of the services, an approval by such a reviewer fails and
  leaves the certificate issued (`CaWorkflows.ApprovalExact`), and an issuance for such a requester reports
  `serial_allocation_failed`, because the retry loop catches every integrity error and not only a
  collision (`CaOperations.IssuanceExact`). These are properties of the signatures only: the routes take
  every id from a row that `get_current_actor` has just loaded (`backend/src/capki/api/deps.py`), and users
  and tokens are deactivated or revoked and never deleted. For a stored reviewer a failed approval
  changes nothing.
- *Zero serials.* An issuance that comes to an all-zero draw ends in an exception of the X.509 library that
  the service does not catch, although the next draw would do: `CaExamples.ZeroDrawRaises` is the run, and
  `CaOperations.Raises`, inside `CaOperations.IssuanceExact`, the exact condition. That condition has a
  second part, a profile with a usage or a lifetime the library does not accept. This is a property of the
  service only: profiles are never written by the program, and the rows it starts with
  (`backend/alembic/versions/237c8e22d7f8_seed_certificate_profiles.py`) are all writable.
- *The root key* is held for less than the relock limit plus the gap between checks exactly when the limit
  is positive (`CaTimers.RelockBoundExact`).
- *The role-map text* gives a map back exactly when every key and role is clean and no key is `__proto__`:
  that key is clean and is lost (`RoleMap.ProtoClaimLost`).
- *The log queue* is described as never blocking its callers. A thread can wait for itself inside the drop
  warning, entered exactly by the second put on a queue that is still full (`LogQueue.SelfWaitEntered`), and
  that is possible exactly if forwarding is configured at WARNING or lower (`LogQueue.SelfWaitLevels`). And
  two threads can wait for each other - one holds the handler lock and wants the drop lock, the other the
  reverse - entered exactly by one of two steps (`LogQueue.CrossWaitEntered`), and possible although the
  queue has room again. These two are the only deadlocks and neither ever resolves. The process can jam
  exactly if the configured level is ERROR or lower (`LogQueue.JamLevels`), ERROR being the highest level
  the program logs at.

## Assumptions

- Service calls on the CA tables do not overlap. The code has no locking there, and this is what makes
  `crl_number` and the approval path correct.
- Cryptography is ideal: a signature verifies only under its own key and content, an envelope opens only
  under its own key, nonce and associated data, SHA-256 and key derivation are injective.
- Rows that are never deleted get their position, counted from 1, as id; the database enforces its unique
  constraints and foreign keys.
- Random draws, profiles, users, API tokens, parsed certificates and delivery outcomes are inputs of each
  call. Each call reads the clock once, except adding to the trust store, which reads it once for each row.
- The settings (master key in the environment, Argon2 parameters, relock limit) are the same after every
  restart of a run; `CaOperations.UnlocksExactly` holds for changed ones as well.
- Writing the key file is atomic, and a commit fails only where a constraint is violated.
- The notification job goes through the certificates in id order.
- The program logs at ERROR at most: no logger call in `backend/src/capki` is above it.
- The relying party's checks leave out dates and certificate policies.

## Model

| member | source | states |
|---|---|---|
| CaTheorems.Hierarchy | backend/src/capki/services/ca_service.py:32-152 | In every run, restarts and crashes included: at most one root and one active intermediate below it, no pending row, and the process holds exactly the keys certified in those rows; the root key is present exactly when its unlocking time is set |
| CaTheorems.MasterKeyStays | backend/src/capki/core/crypto/master_key.py:21-39 | Once there is a master key, it is the same at every later moment of the run |
| CaTheorems.MasterKeyInForce | backend/src/capki/core/crypto/master_key.py:21-39 | In every run the stored intermediate key is the certified one and opens under the environment's master key if that is set, which leaves the key file as it was found, and under the file's key otherwise |
| CaTheorems.ChainsValidate | backend/src/capki/services/cert_service.py:97-106 | The chain of every issued certificate, in every run, is leaf, intermediate, root; each is signed, as it stands, with the key certified in the next; and it passes path validation of section 6.1 of RFC 5280 (names, signatures, CA flags, key usage, path lengths) |
| CaTheorems.SerialsDistinct | backend/src/capki/db/models/certificates.py:26 | Stored serials are positive, below 2 to the 128 (section 4.1.2.2 of RFC 5280) and pairwise distinct as numbers |
| CaTheorems.ListsNumbered | backend/src/capki/core/crypto/crl.py:32-65 | For each CA the list numbers are 1, 2, ... up to `crl_number` in order of publication, a list is valid for 180 days (root) or 30 days (intermediate) from its date, the served list is the last one, and an entry stays unchanged on every later list (sections 5.2.3 and 3.3 of RFC 5280) |
| CaTheorems.ListsDated | backend/src/capki/services/revocation_service.py:23-45 | A list published by an event carries the time of that event |
| CaTheorems.ServedListSubset | backend/src/capki/services/revocation_service.py:65-68 | In every run a served list shows nothing but triples of stored revocations, no serial twice |
| CaLists.MissedExactly | backend/src/capki/services/revocation_service.py:48-79 | In every run a REVOKED certificate is missing from the served list exactly when its revocation was cut off between its two commits, and no list of the intermediate has gone out since |
| CaLists.CutOffExactly | backend/src/capki/services/revocation_service.py:48-68 | A revocation is cut off exactly by a call for a VALID certificate that would succeed - a known reason and a stored actor, or an issuable renewal - and dies between the commit of the revocation and that of the list |
| CaLists.UnlistedExactly | backend/src/capki/services/ca_service.py:44-152 | In every run a CA has no list exactly when it was stored without one, and none has gone out since |
| CaLists.BornExactly | backend/src/capki/services/ca_service.py:75-148 | A CA is stored without a list exactly by a creation that would succeed - with nothing there yet and a passphrase of twelve characters, or with only the root there and unlocked - and dies between the commit of the row and that of the list |
| CaLists.ServedListExact | backend/src/capki/services/revocation_service.py:23-79 | In every run the served list of a CA has exactly the triples of serial, date and reason code of its revoked certificates that are not overlooked, the code being the one whose name in section 5.3.1 of RFC 5280 is stored; no serial twice; there is no list exactly if there has never been one |
| CaLists.RefreshRestores | backend/src/capki/scheduler.py:33-45 | Whatever has crashed before: from a refresh on that gets as far as this CA while its key is in memory (always, for the intermediate), the CA's list is exact, for as long as calls run to their end |
| CaLists.CrlPointer | backend/src/capki/api/routers/ca.py:152-162 | In every run a certificate's list pointer reaches a list of the same signing key that a relying party accepts (section 6.3.3 of RFC 5280), unless the intermediate has never had one, and the serial is shown exactly when the certificate is REVOKED and not overlooked |
| CaLists.CaCrlPointer | backend/src/capki/core/crypto/ca_engine.py:55-80 | In every run the pointers of root and intermediate reach an acceptable list of the root, unless it has never had one, and that lists nothing |
| CaLists.CrashFreeFresh | backend/src/capki/services/revocation_service.py:48-79 | Where no call died, every CA has a list, and it shows exactly the stored revocations |
| CaTheorems.RevokedExactly | backend/src/capki/db/models/certificates.py:48 | A certificate is REVOKED exactly when it has a revocation row, and it has at most one |
| CaHistory.NothingUndone | backend/src/capki/services/revocation_service.py:51-68 | Along every run certificates, revocations and lists are only added; REVOKED, decided requests and notification dates are final |
| CaOperations.SetupExactly | backend/src/capki/services/ca_service.py:44-152 | A root can be created exactly while there is none and with a passphrase of at least twelve characters, the intermediate exactly while there is only the root and its key is in memory; which error is reported otherwise, with nothing changed; the new CA has the names, key size (RSA 4096 or 3072), lifetime (3653 or 1827 days), path length and pointers of its kind, and has published a list |
| CaOperations.UnlocksExactly | backend/src/capki/core/crypto/key_vault.py:64-77 | At every later moment of every run the root unlocks with exactly the passphrase of its creation, even after the derivation parameters have changed, and the unlocked key is the certified one |
| CaOperations.IssuanceExact | backend/src/capki/services/cert_service.py:109-186 | In every run an issuance succeeds exactly when the intermediate is there, an active profile of the asked code that the library can write accepts the request and the lifetime, user and token are stored, and one of five draws is free; it then adds one certificate with the first free draw as its serial: subject, key and names of the request, each printed as "dns:", "ip:" or "email:" and its value, usages of the profile, and a lifetime as asked or the profile's longest. What is known before the call when each error is reported; serial_allocation_failed exactly when the database refuses all five rows, an exception exactly when it comes to a draw or a profile the library cannot write; a failure changes no table |
| CaWorkflows.RevocationExact | backend/src/capki/services/revocation_service.py:48-79 | In every run a revocation succeeds exactly for a VALID certificate, one of the six known reasons and a stored actor, or none; it records who, when and why, changes no other certificate, and the newest list has the entry with the reason code of that name; which error is reported otherwise, with nothing changed |
| CaWorkflows.RenewalExact | backend/src/capki/services/cert_service.py:189-231 | In every run a renewal succeeds exactly when the predecessor exists and a certificate of its profile is issuable, and a failure reports why and changes nothing; it adds one VALID certificate as asked and supersedes the predecessor exactly when that was VALID: a revocation row with reason superseded, the entry on the newest list, and as many VALID certificates as before |
| CaWorkflows.Workflow | backend/src/capki/services/cert_request_service.py:77-109 | In every run a request is APPROVED exactly when it names a certificate, that certificate has its signing request, profile and requester, and no two requests share one |
| CaWorkflows.SubmissionExact | backend/src/capki/services/cert_request_service.py:21-47 | In every run a request is stored, pending and as asked, exactly when an active profile accepts its signing request and the requester is stored, and which error is reported otherwise; an approval at once would pass every check before the serial is drawn |
| CaWorkflows.DecisionsFinal | backend/src/capki/services/cert_request_service.py:68-74 | APPROVED and REJECTED are final, and what was asked for never changes |
| CaWorkflows.ApprovalExact | backend/src/capki/services/cert_request_service.py:77-109 | In every run an approval succeeds exactly when the request is pending, a certificate for its requester and of the lifetime the reviewer gives is issuable and the reviewer is stored; the linked certificate has the request's data and that lifetime, or the profile's longest; a lifetime outside the profile's limit is refused as such; which error is reported otherwise; it fails with changed tables exactly when only the reviewer is missing, so never for a stored reviewer |
| CaWorkflows.ReissuedExactly | backend/src/capki/services/cert_request_service.py:83-98 | In every run two approvals of one request both issue a certificate exactly when the earlier one is cut short between its two commits and the request is approvable both times |
| CaWorkflows.RejectionOf | backend/src/capki/services/cert_request_service.py:112-132 | A rejection succeeds exactly for a pending request and a stored reviewer, and touches that request only; which error is reported otherwise |
| CaWorkflows.RejectionExact | backend/src/capki/services/cert_request_service.py:112-132 | In every run a rejected request keeps reviewer, date and reason at every later moment and never gets a certificate again |
| CaWorkflows.OwnersOnly | backend/src/capki/services/cert_request_service.py:135-149 | Only the requester or a privileged reader gets a certificate, of an approved request, and it is the linked one, issued for that requester and signing request; which error is reported otherwise |
| CaNotifications.NotifiedExactly | backend/src/capki/scheduler.py:57-94 | In every run the stored notification date is that of the job that reached the owner and recorded it, and there is none before it |
| CaNotifications.TriedExactly | backend/src/capki/scheduler.py:57-94 | In every run a job tries the owner of a certificate exactly when it is valid, inside the warning window, its owner is stored, the job gets as far as this certificate, and no earlier job recorded a success |
| CaNotifications.ReachedAgainExactly | backend/src/capki/scheduler.py:57-94 | In every run an owner is reached exactly when the certificate is due, the job gets that far, the delivery succeeds, and every job that reached the owner before died between delivery and commit |
| CaNotifications.NotifiedOnce | backend/src/capki/scheduler.py:48-111 | After a recorded success an owner is never tried, and so never reached, again |
| CaTimers.RootKeyExactly | backend/src/capki/core/crypto/key_vault.py:64-92 | In every run the root key is in memory exactly from an unlocking - with the passphrase of the root, or by creating it - to the next locking, end of the process or check past the limit, and the time is that of the last unlocking |
| CaTimers.RootKeyHeldBound | backend/src/capki/scheduler.py:23-30 | With relock checks at gaps of at most g the root key is held for less than the limit plus g after the last unlocking (at most g for a limit that is not positive) |
| CaTimers.RelockBoundExact | backend/src/capki/scheduler.py:23-30 | The bound of limit plus gap holds of all runs exactly when the limit is positive |
| CaTimers.RootKeyStays | backend/src/capki/core/crypto/key_vault.py:64-92 | An unlocked root key stays in memory until it is locked, the process ends or a check finds the limit reached |
| CaTimers.ListValidityBound | backend/src/capki/core/crypto/crl.py:28-41 | With refreshes at gaps of at most g, the intermediate's served list is valid for at least 30 days less g, whatever crashed since |
| CaExamples.FailedApprovalLeavesCertificate | backend/src/capki/services/cert_request_service.py:83-98 | By the signature of the service only: an approval by a reviewer who is not stored fails and leaves a certificate issued |
| CaExamples.AllocationFailsWithoutCollision | backend/src/capki/services/cert_service.py:168-172 | By the signature of the service only: for a user who is not stored, serial allocation fails against an empty table |
| CaExamples.ZeroDrawRaises | backend/src/capki/core/crypto/ca_engine.py:241 | A run in which a zero draw ends the issuance in an exception although the next draw would do |
| CaExamples.CrashHidesRevocation | backend/src/capki/services/revocation_service.py:65-68 | A run in which a crash keeps a revoked certificate off the served list |
| CaExamples.CrashLeavesNoList | backend/src/capki/services/ca_service.py:75-83 | A run in which a crash leaves the new root without a list |
| CaExamples.CrashIssuesTwice | backend/src/capki/services/cert_request_service.py:83-98 | A run in which a crash between the commits of an approval makes the next one issue a second certificate for the request |
| CaExamples.CrashNotifiesTwice | backend/src/capki/scheduler.py:57-94 | A run in which a crash makes two notification runs reach the same owner |
| CaMachine.RunOk | backend/src/capki/main.py:32-41 | The whole invariant of tables, keys and lists holds after every event of every run, crashes and restarts included |
| CaServices.SecretsFile.LoadOrCreateMasterKey | backend/src/capki/core/crypto/master_key.py:21-39 | Returns the environment's key if it is set and else the file's, the file unchanged; if both are absent a drawn key, which the file then holds |
| CaServices.KeyVault.LoadIntermediate | backend/src/capki/core/crypto/key_vault.py:38-54 | Holds the active intermediate's opened key and id, or neither if there is none; a key that does not open leaves the vault alone |
| CaServices.KeyVault.UnlockRoot | backend/src/capki/core/crypto/key_vault.py:64-77 | The vault and result of the specification: the key and the time are set only if the passphrase opens the stored key |
| CaServices.KeyVault.LockRoot | backend/src/capki/core/crypto/key_vault.py:79-81 | Forgets the root key and its unlocking time and nothing else |
| CaServices.KeyVault.CheckRootAutoRelock | backend/src/capki/scheduler.py:23-30 | Locks exactly when the root has been unlocked for the limit or longer |
| CaServices.BuildCrl | backend/src/capki/core/crypto/crl.py:32-65 | Counts the CA's number up by one and signs a list of that number with the entries of its revoked certificates |
| CaServices.RefreshCrl | backend/src/capki/services/revocation_service.py:23-45 | Stores the next list exactly when the signing key is in memory, and otherwise changes nothing |
| CaServices.RevokeCertificate | backend/src/capki/services/revocation_service.py:48-79 | Does to the tables what the specified revocation does, with the same error for each refusal |
| CaServices.RefreshAllCrls | backend/src/capki/scheduler.py:33-45 | Refreshes every active CA and no other |
| CaServices.InitRoot | backend/src/capki/services/ca_service.py:44-92 | Tables, vault and result of the specified root creation |
| CaServices.InitIntermediate | backend/src/capki/services/ca_service.py:95-152 | Tables, vault, key file and result of the specified intermediate creation |
| CaServices.IssueCertificate | backend/src/capki/services/cert_service.py:109-186 | Certificate table and result of the specified issuance; no other table changes |
| CaServices.AllocateSerial | backend/src/capki/services/cert_service.py:137-186 | The retry loop stores one row or none and agrees with the specified attempts |
| CaServices.RenewCertificate | backend/src/capki/services/cert_service.py:189-231 | Tables and result of the specified renewal |
| CaServices.BuildChainPem | backend/src/capki/services/cert_service.py:97-106 | The parts of the chain in order, as far as they are there |
| CaServices.SubmitRequest | backend/src/capki/services/cert_request_service.py:21-47 | Stores a pending request for a signing request the profile accepts, and otherwise reports why |
| CaServices.ApproveRequest | backend/src/capki/services/cert_request_service.py:77-109 | Tables and result of the specified approval, including the certificate of a failed one |
| CaServices.RejectRequest | backend/src/capki/services/cert_request_service.py:112-132 | Tables and result of the specified rejection |
| CaServices.CheckExpiringCerts | backend/src/capki/scheduler.py:48-111 | Sets the date on exactly the certificates that are attempted and delivered |
| CaProcess.Perform | backend/src/capki/main.py:32-46 | A call of a service, a job or a restart on the objects does to tables, vault and key file what the event of that name does in a run |
| CaProcess.CasStoredInRuns | backend/src/capki/db/models/certificates.py:25 | In every run each certificate names a stored CA, as the services require |
| CertPolicy.AcceptedExactly | backend/src/capki/services/cert_service.py:73-94 | A signing request is accepted exactly when it is readable, signed, of an RSA key of 2048 bits or more or one of two curves, names only types on the profile's list, and has an e-mail name where one is required; its names are printed; which error is reported otherwise |
| CertPolicy.SansExact | backend/src/capki/services/cert_service.py:55-63 | Names are accepted exactly when each is a DNS name with "dns" on the list, an address with "ip" on it or a mailbox with "email" on it; the error names the type of the first that is not |
| CertPolicy.EmailPrefixExact | backend/src/capki/services/cert_service.py:55-63 | The check for printed names starting with "email:" finds e-mail names and nothing else |
| CertPolicy.ValidateSans | backend/src/capki/services/cert_service.py:55-63 | All names printed in order, or the type of the first name that is not on the list |
| CertPolicy.ValidateCsrForProfile | backend/src/capki/services/cert_service.py:73-94 | The first failing check decides the error |
| X509.ReasonFlagsExact | backend/src/capki/core/crypto/crl.py:18-25 | The reasons accepted are exactly the names of six reason codes of section 5.3.1 of RFC 5280, and each stands for the code of that name |
| X509.UsagesExact | backend/src/capki/core/crypto/ca_engine.py:178-198 | The usages a profile may name are exactly those of section 4.2.1.3 of RFC 5280 and four purposes; a cipher-only bit needs key agreement |
| Numerals.HexInjective | backend/src/capki/core/crypto/ca_engine.py:241 | Hexadecimal texts of the same width denote different numbers unless they are equal |
| Numerals.HexRoundTrip | backend/src/capki/core/crypto/ca_engine.py:241 | The number read from a text of hexadecimal digits is the one it is written for |
| Numerals.TokenBelow | backend/src/capki/services/cert_service.py:138 | A drawn serial of 32 digits is below 2 to the 128 |
| Numerals.DecimalRoundTrip | backend/src/capki/core/crypto/key_vault.py:25-28 | A row id written in decimal digits reads back as that id, without a leading zero |
| Crypto.SignatureExact | backend/src/capki/core/crypto/ca_engine.py:120 | A signature verifies under the public key of the key that made it and no other, and for its own content only |
| Crypto.AeadExact | backend/src/capki/core/crypto/envelope.py:47-55 | A ciphertext opens under its own key, nonce and associated data and no others |
| Crypto.CaAadInjective | backend/src/capki/core/crypto/key_vault.py:25-28 | Different CA rows have different associated data |
| Crypto.CaAadExact | backend/src/capki/core/crypto/key_vault.py:25-28 | The associated data of a row is "ca:" and its id in decimal |
| Crypto.PassphraseEnvelope | backend/src/capki/core/crypto/envelope.py:58-86 | A wrapped key opens with exactly its passphrase in exactly its row, even after the default parameters have changed |
| Crypto.MasterKeyEnvelope | backend/src/capki/core/crypto/envelope.py:89-96 | A wrapped key opens with exactly its master key in exactly its row |
| Crypto.OldEnvelope | backend/src/capki/core/crypto/envelope.py:72-86 | An envelope without derivation parameters opens with its passphrase exactly under the defaults it was made with |
| Sessions.SessionStore.CreateSession | backend/src/capki/core/security/sessions.py:16-34 | Adds the row, or refuses it for a taken key or a missing user; returns the stored expiry |
| Sessions.SessionStore.GetValidSession | backend/src/capki/core/security/sessions.py:37-59 | Accepts and slides the expiry, or changes nothing |
| Sessions.SessionStore.RevokeSession | backend/src/capki/core/security/sessions.py:62-66 | Sets the revocation time of a session that has none |
| Sessions.SessionStore.RevokeAllSessionsForUser | backend/src/capki/core/security/sessions.py:69-74 | Sets the revocation time on exactly the user's sessions that have none |
| Sessions.RowTells | backend/src/capki/core/security/sessions.py:16-74 | In every reachable table a row carries its creation, the last accepted lookup and whether it was revoked since; its expiry is the idle limit after creation, and from the first lookup on the earlier of the idle limit after the last one and the absolute limit |
| Sessions.AcceptedExactly | backend/src/capki/core/security/sessions.py:37-59 | A lookup is accepted exactly when the session was created, not revoked since, last seen less than the idle limit ago and created less than the absolute limit ago, for any clock readings |
| Sessions.NeverAgain | backend/src/capki/core/security/sessions.py:47-52 | With a clock that does not run backwards, a session turned away once is turned away from then on |
| Sessions.RevokedForGood | backend/src/capki/core/security/sessions.py:62-74 | A revoked row never changes again |
| Sessions.RevokedExactly | backend/src/capki/core/security/sessions.py:62-74 | The recorded revocation time is that of the first revocation of the session or of its user |
| Tokens.TokenStore.CreateToken | backend/src/capki/services/token_service.py:31-57 | Stores prefix and hash of the new token and returns its id and the raw value, which is "catk_" and the secret and is not stored |
| Tokens.FirstMatch | backend/src/capki/services/token_service.py:66-68 | The loop over the candidates ends with the first of them that has the hash |
| Tokens.TokenStore.AuthenticateToken | backend/src/capki/services/token_service.py:60-82 | The specified lookup through the prefix; marks the row used exactly when it succeeds |
| Tokens.TokenStore.RevokeToken | backend/src/capki/services/token_service.py:85-103 | Not found, forbidden for others than owner and administrator, or the row revoked; a second revocation changes nothing |
| Tokens.PrefixesOwn | backend/src/capki/services/token_service.py:34-46 | In every reachable table each row's prefix is that of its own secret |
| Tokens.PrefixLookupExact | backend/src/capki/services/token_service.py:60-82 | In every reachable table the prefix lookup answers like a search of all rows by hash followed by the checks |
| Tokens.RowTells | backend/src/capki/services/token_service.py:31-103 | In every reachable table a token's row carries user, name, expiry and date of its creation, the first twelve characters of the secret, the last accepted use, and time and actor of the first revocation |
| Tokens.AcceptedExactly | backend/src/capki/services/token_service.py:60-82 | A raw token is accepted exactly when it was created, not revoked since by its owner or an administrator, has not expired and its user is active; so a revoked one never again |
| Tokens.FirstRevokerKept | backend/src/capki/services/token_service.py:91-94 | Time and actor of the first revocation stay on record |
| Text.SplitExactly | backend/src/capki/services/trust_service.py:38 | Splitting is the one way to cut a text at separators, always at the leftmost |
| Text.StripExactly | backend/src/capki/services/trust_service.py:38 | The stripped text is the one trimmed slice between two runs of blanks |
| Text.ContainsExactly | backend/src/capki/services/trust_service.py:39 | A text contains another exactly if it can be cut around it |
| PemBundle.BlankExact | backend/src/capki/services/trust_service.py:38 | The characters trimmed are the 29 of white space in Python |
| PemBundle.SplitStable | backend/src/capki/services/trust_service.py:37-39 | For every text, splitting the concatenation of its pieces gives the same pieces |
| PemBundle.SplitGivesBlocks | backend/src/capki/services/trust_service.py:37-39 | Every piece is a non-blank trimmed body and one end marker |
| PemBundle.PiecesExact | backend/src/capki/services/trust_service.py:37-39 | The pieces are, in order, the parts between end markers that hold a certificate header, each trimmed and followed by its marker on a line of its own |
| PemBundle.BlobSplits | backend/src/capki/core/net/trust_store.py:40-46 | The cached text of any list of pieces splits back into exactly that list |
| PemBundle.BlobExact | backend/src/capki/core/net/trust_store.py:40-46 | The cached text is the stored certificates one after the other, without the last line break |
| TrustStore.AddAllOrNothing | backend/src/capki/services/trust_service.py:57-99 | A bundle is refused exactly when a block is not a CA certificate, nothing is new or the actor is not stored, with the error of the first complaint; otherwise there is one row for each first occurrence of a new fingerprint, in bundle order: enabled, with its block, certificate, caption (none for an empty one), actor and time, and ids that count on |
| TrustStore.NewRowsExact | backend/src/capki/services/trust_service.py:76-97 | Each stored row has its block's text, certificate and caption, and an id above all present ones |
| TrustStore.AddKeepsTable | backend/src/capki/services/trust_service.py:57-99 | Ids and fingerprints stay unique through every add |
| TrustStore.RemoveKeepsTable | backend/src/capki/services/trust_service.py:146-164 | Deleting removes exactly the row of that id and keeps the table well formed |
| TrustStore.SelectNew | backend/src/capki/services/trust_service.py:57-97 | The checking loop ends with the first complaint, or with the rows to store |
| TrustStore.ShownExactly | backend/src/capki/core/net/trust_store.py:32-46 | A certificate is in the cached text exactly if its row is enabled |
| TrustStore.TrustService.AddTrustedCas | backend/src/capki/services/trust_service.py:50-111 | Adds the selected rows, each of which the cached text then shows, or changes neither table nor cache |
| TrustStore.TrustService.UpdateTrustedCa | backend/src/capki/services/trust_service.py:114-143 | The row of that id gets the given flag and caption (none for an empty one) or keeps its own, and nothing else changes; the cached text then shows it exactly if it is enabled |
| TrustStore.TrustService.DeleteTrustedCa | backend/src/capki/services/trust_service.py:146-164 | Removes exactly the row of that id, which the cached text then does not show |
| TrustStore.TrustService.LoadTrustedCas | backend/src/capki/core/net/trust_store.py:32-37 | The enabled rows, each once, newest first |
| TrustStore.TrustService.RefreshCache | backend/src/capki/core/net/trust_store.py:40-46 | Splitting the cached text gives exactly the enabled rows' certificates, newest first |
| TrustStore.TrustService.Startup | backend/src/capki/main.py:37 | A new process has the cache the table asks for |
| RoleMap.RoleMapFromText | frontend/src/pages/Settings.tsx:18-27 | The loop over the lines computes the specified map |
| RoleMap.BlankExact | frontend/src/pages/Settings.tsx:21 | The characters trimmed are the 25 of white space in JavaScript |
| RoleMap.ParsedExactly | frontend/src/pages/Settings.tsx:18-27 | The parsed map has exactly the entries that lines give: the claim before the first "=" and the role up to the next or the end, both trimmed and not blank, the claim not `__proto__`; of several lines for one claim the last counts |
| RoleMap.PrintedExactly | frontend/src/pages/Settings.tsx:12-16 | The printed text has one line of claim, "=" and role for each entry |
| RoleMap.FromTextStorable | frontend/src/pages/Settings.tsx:18-27 | Whatever is typed, every key and role that comes out is non-empty, trimmed and free of `=` and line breaks |
| RoleMap.RoundTrip | frontend/src/pages/Settings.tsx:12-27 | Printing and parsing gives a map back exactly when it is storable, in whatever order its entries are listed |
| RoleMap.SavedTextStable | frontend/src/pages/Settings.tsx:12-27 | For every text, showing the saved map and saving it again changes nothing |
| RoleMap.ProtoClaimLost | frontend/src/pages/Settings.tsx:23-24 | A clean map the form does not give back |
| LogQueue.Conservation | backend/src/capki/services/log_forwarding_service.py:252-268 | In every interleaving, events offered equal taken plus queued plus dropped plus drops about to be counted; the queue holds at most 2000; taken then queued is what was accepted, in order |
| LogQueue.RecordAlone | backend/src/capki/services/log_forwarding_service.py:252-284 | A record logged on its own is queued exactly if HEC or syslog is enabled and its level is at least the configured one, counted as dropped if the queue is full, and otherwise changes nothing |
| LogQueue.AuditAlone | backend/src/capki/services/log_forwarding_service.py:252-325 | An audit event on its own is queued exactly if HEC or syslog is enabled, whatever the level |
| LogQueue.SelfWaitExact | backend/src/capki/services/log_forwarding_service.py:263-268 | A thread waits for itself only inside the drop warning, with a drop count of 1 modulo 100 and a level of at most WARNING |
| LogQueue.SelfWaitEntered | backend/src/capki/services/log_forwarding_service.py:256-263 | The step into it is exactly the second put on a queue that is still full |
| LogQueue.CrossWaitEntered | backend/src/capki/services/log_forwarding_service.py:256-268 | Two threads come to wait for each other exactly by the put of a logging call on a full queue while the other is about to log the drop warning, or by the count of a reported drop while a logging call waits to count its own |
| LogQueue.JamFreezes | backend/src/capki/services/log_forwarding_service.py:263-268 | Once jammed, the process counts no drop ever again, and every thread that needs either lock hangs |
| LogQueue.BlockedOnlyByJam | backend/src/capki/services/log_forwarding_service.py:252-328 | Without a jam some busy thread can always step |
| LogQueue.DeadlockIsJam | backend/src/capki/services/log_forwarding_service.py:252-328 | A deadlock of all busy threads is a self-wait or a wait of two threads for each other |
| LogQueue.SelfWaitHappens | backend/src/capki/services/log_forwarding_service.py:252-268 | A reachable state with a self-wait, for every level up to WARNING |
| LogQueue.CrossWaitHappens | backend/src/capki/services/log_forwarding_service.py:252-328 | A reachable state with two threads waiting for each other, for every level up to ERROR, with room in the queue |
| LogQueue.SelfWaitLevels | backend/src/capki/services/log_forwarding_service.py:263-268 | With records of at most ERROR, a thread can come to wait for itself exactly if the configured level is WARNING or lower |
| LogQueue.JamLevels | backend/src/capki/services/log_forwarding_service.py:252-328 | With records of at most ERROR, the process can jam exactly if the configured level is ERROR or lower |

## Left out

- Real cryptography, certificate and PEM encoding, and what the X.509 library refuses beyond the cases named in `CertPolicy` and `X509` (malformed CA names, for instance).
- Audit log rows, which every service writes after its own commit, and fingerprints, names and addresses that are stored and shown only.
- Overlapping service calls: the tables of the CA have no locks, and the model runs one call after the other.
- Delivery by e-mail, Telegram, HEC and syslog: an arbitrary success or failure for each attempt.
- Which of its outputs the log worker sends an event to, and stopping it: the queue is modelled with the worker attached throughout.
- SAML, password login, the routers other than the one that serves lists, and the React code other than the two role-map functions.
- The SQL engine: the order of rows without ORDER BY is not modelled, so list entries are compared as sets and the order of trust-store rows with equal dates is left open. Tokens with the same prefix are searched in id order.
- Validity dates in path validation: a leaf may outlive the intermediate, because the code does not limit it.
- Users, profiles and the rules for editing them: each call is given those that exist at that moment.
- Text outside the Basic Multilingual Plane: JavaScript strings are taken as sequences of characters.
- CaLists.ServedListExact: entries are compared as a set without repetition.
- CaServices: rows are values in a table, changed by replacing them; the identity map of the ORM, in which two names can mean one row object, is not modelled.
- LogQueue: the threads of one process are steps of one machine on values, because their interleaving is the point; the code's global variables are its fields.
