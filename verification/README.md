# traefik-acme-s3, verified

A Dafny model of traefik-acme-s3: a program that obtains ACME certificates, keeps them in an S3 bucket,
publishes their TLSA records, and copies them to web servers. Several instances may run against one bucket,
any call may fail (a failed write may still have taken effect), and a process may crash between any two calls.

The files follow the program's structure. Code that changes state is a class whose methods change the same
fields; what a whole run keeps is proved about state machines, and the methods are proved to be runs of them.

- `RolloverProtocol.dfy`, `Cloud.dfy`, `CertCloset.dfy`, `DnsUpdate.dfy`, `Renew.dfy`, `Daemon.dfy`: the TLSA key
  rollover. The protocol is a machine over single external calls. `World` holds the bucket, the zone and the clock
  and, for one domain (the focus), a ghost run of the protocol; a write is allowed only where the protocol allows
  it, so every method of `Renew.App` is proved to stay inside the protocol, whatever fails.
- `Turns.dfy`, `Runs.dfy`, `Retries.dfy`, `FaultFree.dfy`: the renewing loop. `Turns` says what one domain's turn may
  do, branch by branch; the methods of `Renew.App` are proved to do just that, and a run of the loop returns its turns
  as a `Run`. What runs add up to is proved about sequences of such runs: the accounts, which domains are requested
  again, how often a withdrawal fails, and how a rollover ends.
- `LockProtocol.dfy`, `Lock.dfy`: the S3 lease lock of any number of instances at the granularity of single S3
  calls, its reduction to atomic operations, and the program's operations as runs of that machine.
- `LocalCloset.dfy`, `Sync.dfy`: remote index, local index and files, reconciled under partial failure.
- `AccountProtocol.dfy`, `LeUser.dfy`: how instances come to share one ACME account.
- `Crypt.dfy`, `DnsKeys.dfy`, `Names.dfy`, `Backoff.dfy`, `Calendar.dfy`: the smaller algorithms.

## Assumptions

Each is a precondition, a parameter or a predicate in the files.

- Fresh keys have fresh TLSA hashes; fresh lock tokens are new (`World.keyAt`, `Instance.draw`).
- The clock of a process never goes back; different instances read one clock.
- One renewing process writes at a time. The theorems about rollovers and runs rest on this: between the calls of a
  process nobody else writes the bucket or the zone. The lock of `LockProtocol` is what provides it, as far as it does.
- `Patient`: the two configured waits are at least the resolvers' cache lifetime and the nodes' sync lag. The code
  does not check this; `ContinuousIffPatient` shows that it is exactly what continuity needs.
- At the start no rollover is under way, and the stored certificate's association has long been published.
- Rollover is enabled for the focus with one configuration over the whole run, and no other configured domain owns
  the same TLSA RRset (`Suiting`). Lower-case names without a final dot always meet the latter (`PlainNamesSuit`).
- The CA issues for the domain and the key that were asked for.
- `Undisturbed`: for disjoint leases and for one account key, no other instance writes the object between an
  operation's look and its put. Without it both properties fail, which is proved for each of the puts concerned:
  `MutualExclusionCanFail`, `LateRefreshBreaksExclusion`, `AgreementCanFail`.
- `Sound`: block decryption undoes encryption, and what opens is exactly what was sealed.
- ETags are present and identify contents.

## Where code and documentation disagree

The model follows the code.

- `AcquireLock` says that stale locks are overwritten conditionally. They are not: the ETag is dropped, and an
  absent lock is checked by a separate request (`pkg/certcloset/lock.go:81-113`). See `MutualExclusionCanFail`.
- `RefreshIndex` says that it replaces the in-memory index. It decodes into the existing map and so merges
  (`pkg/certcloset/index.go:62`).
- `advanceRollover` explains a missing pending key as a partial start (`app/renew.go:332-333`). A partial start leaves
  no record; the branch is reached by any error in loading the key, and then drops the record.
- The repository's README promises that rollover prevents verification gaps; that needs `Patient`.
- `syncCerts` returns without an error when nothing changed, even if removals failed (`app/sync.go:110-113`). See
  `UnreportedFailure`.

## Model

| member | source | states |
|---|---|---|
| RolloverProtocol.DaneContinuity | app/renew.go:276-421 | in every run of any length, with any failures, crashes and resets, every certificate a node may still serve is in every TLSA RRset a resolver may still hold, provided the configured waits are long enough |
| RolloverProtocol.ContinuousIffPatient | app/renew.go:343-345 | all runs are free of DANE gaps if and only if the two waits cover the cache lifetime and the sync lag |
| RolloverProtocol.RecordedRolloverIsPublished | app/renew.go:284-316 | for all waits, in every run: while a record exists its new association is published, any pending key hashes to it, and the old association is another one |
| RolloverProtocol.CertifiedKeyIsLongPublished | app/renew.go:343-358 | for all waits: a key that is sent to the CA has had its association published without a gap for at least the recorded wait |
| RolloverProtocol.RunInv | app/renew.go:276-421 | for all waits, the invariant of keys, records and published associations holds at every call boundary of every run |
| RolloverProtocol.RunContinuous | app/renew.go:276-421 | with long enough waits continuity is kept along every run, next to the invariant |
| RolloverProtocol.SwitchKeeps | app/renew.go:363-366 | replacing the certificate opens no gap: all still-cached RRsets hold the new association |
| RolloverProtocol.WithdrawKeeps | app/renew.go:397-409 | removing the old association opens no gap: no node still serves a certificate that needs it |
| RolloverProtocol.StepKeeps | app/renew.go:276-421 | every step, be it time, an effect, a return or a crash, keeps continuity if the waits are long enough |
| RolloverProtocol.StepInv | app/renew.go:276-421 | every step keeps the invariant, whatever the waits |
| RolloverProtocol.SwitchRun | app/renew.go:343-366 | a run that has switched exactly when the pre-publish wait was over, which gaps if caches live longer |
| RolloverProtocol.WithdrawRun | app/renew.go:387-409 | a run that has withdrawn exactly when the sync lag was over, which gaps if nodes lag longer |
| Names.KeysApart | pkg/certcloset/state.go:14-19 | for slash-free names other than the index name, a domain's three objects differ from each other and from the shared ones |
| Names.DomainsApart | pkg/certcloset/state.go:154-247 | different domains share no object in the bucket |
| Names.RolloverKeyInjective | pkg/certcloset/state.go:154-200 | the key of a rollover record determines its domain |
| Names.PendingKeyInjective | pkg/certcloset/state.go:203-247 | the key of a pending key determines its domain |
| Names.OwnersDiffer | pkg/dnsupdate/updater.go:113-165 | different lower-case names without a final dot own different TLSA RRsets |
| Names.WildcardsBegin | app/renew.go:116-117 | wildcard names are exactly those that begin with the literal "*.", and any other name is its own base |
| Names.WildcardOf | app/renew.go:116-117 | the base of "*." followed by a name is that name |
| Names.LowerAt | pkg/dnsupdate/config.go:57-60 | lower-casing keeps the length and works character by character |
| Names.LowerLetters | pkg/dnsupdate/config.go:57-60 | the capital letters of ASCII become small ones and no other character changes |
| Cloud.World.FocusIsContinuous | app/renew.go:114-272 | whatever calls the program made and however they ended, the focus has had no DANE gap at any earlier or present moment |
| Cloud.World.PutObject | pkg/certcloset/certcloset.go:116-120 | a put that reports failure has taken effect or not; one that reports success has |
| Cloud.World.DeleteObject | pkg/certcloset/state.go:190-200 | the same for a deletion |
| Cloud.World.SendUpdate | pkg/dnsupdate/updater.go:192-209 | the same for one DNS UPDATE message, which changes one TLSA RRset at once |
| CertCloset.NewCertCloset | pkg/certcloset/certcloset.go:67-93 | a process gets a closet only if the index could be read; it then holds the persisted index and the write-back invariant holds from the start |
| CertCloset.CertCloset.RetrieveIndex | pkg/certcloset/index.go:40-68 | a refresh merges the bucket's index into the one in memory, or empties it if there is none, or fails and changes nothing; an object that is no index is a failure |
| CertCloset.CertCloset.PutWithRetry | pkg/certcloset/certcloset.go:108-126 | up to three puts come to one: done, or failed with or without effect; with the pauses of two and four seconds an outage that ends within six seconds is survived |
| CertCloset.CertCloset.SaveIndex | pkg/certcloset/certcloset.go:130-151 | a clean index is the persisted one before and after; a successful save of a dirty one persists it; a failed one stays dirty |
| CertCloset.CertCloset.AddToIndex | pkg/certcloset/certcloset.go:154-159 | the entry is in the index, which is dirty, and the write-back invariant holds |
| CertCloset.CertCloset.RemoveFromIndex | pkg/certcloset/certcloset.go:162-167 | the entry is gone, the index is dirty, and the write-back invariant holds |
| CertCloset.CertCloset.StoreCertificate | pkg/certcloset/store.go:42-80 | the index learns of a certificate only after the object is stored, with the encrypted private key exactly where private keys are stored, and with its expiry or that of 89 days on; on failure, that of the encryption too, the index is unchanged; success is one store |
| CertCloset.CertCloset.PutCertificate | pkg/certcloset/store.go:57-66 | the object under the domain's key is this certificate, with or without its encrypted key, or, if that is reported, what it was |
| CertCloset.CertCloset.EncryptPrivKey | pkg/certcloset/store.go:47-55 | there is an encrypted key exactly where private keys are stored, and a failure only there |
| CertCloset.CertCloset.RetrieveCertificate | pkg/certcloset/store.go:85-116 | what is returned is the stored object under the requested name; not-found means absent |
| CertCloset.CertCloset.CertificateExists | pkg/certcloset/store.go:120-132 | present, absent and unknown are told apart |
| CertCloset.CertCloset.LoadFailureState | pkg/certcloset/state.go:46-66 | an absent object reads as no failures, anything else that is not readable as an error |
| CertCloset.CertCloset.StoreFailureState | pkg/certcloset/state.go:69-80 | no domain's object is touched |
| CertCloset.CertCloset.LoadRolloverState | pkg/certcloset/state.go:154-172 | found, absent and unreadable are told apart |
| CertCloset.CertCloset.StoreRolloverState | pkg/certcloset/state.go:175-187 | only this domain's record changes |
| CertCloset.CertCloset.DeleteRolloverState | pkg/certcloset/state.go:190-200 | only this domain's record goes |
| CertCloset.CertCloset.StorePendingKey | pkg/certcloset/state.go:203-215 | only this domain's pending key changes |
| CertCloset.CertCloset.LoadPendingKey | pkg/certcloset/state.go:218-237 | a missing and an unreadable key are the same error |
| CertCloset.CertCloset.DeletePendingKey | pkg/certcloset/state.go:240-247 | only this domain's pending key goes |
| DnsKeys.KeyFor | pkg/dnsupdate/config.go:57-70 | an entry is found if and only if some label suffix of the lower-cased, dot-trimmed name has one, and it is that of the longest |
| DnsKeys.Enabled | pkg/dnsupdate/updater.go:39-42 | true exactly for domains with an entry on the walk to the root |
| DnsKeys.HasKeyIff | pkg/dnsupdate/config.go:57-70 | there is a key exactly for the zones that have an entry and the names below them, label by label |
| DnsKeys.OwnerOfQuery | pkg/dnsupdate/config.go:57-60 | two names are looked up alike exactly if they own the same RRset: neither case nor a final dot matters |
| DnsKeys.QueryOfPlain | pkg/dnsupdate/config.go:57-60 | a lower-case name is looked up as it is, with or without a final dot |
| DnsUpdate.Updater.AddTLSA | pkg/dnsupdate/updater.go:113-137 | one association is added and no other changes (section 2.5.1 of RFC 2136), or nothing changes |
| DnsUpdate.Updater.RemoveTLSA | pkg/dnsupdate/updater.go:139-165 | one association is removed and no other changes (section 2.5.4 of RFC 2136), or nothing changes |
| DnsUpdate.Updater.UpdateDNS | pkg/dnsupdate/updater.go:46-109 | the whole TLSA RRset is replaced by one association (section 2.5.2 of RFC 2136), never for a name that begins with "*.", and only as far as the rollover protocol allows; where no call fails it is, unless the certificate cannot be parsed |
| DnsUpdate.Updater.UpdateCAA | pkg/dnsupdate/updater.go:167-189 | no TLSA RRset is concerned |
| Backoff.GateStaysShut | app/backoff.go:28-48 | after a recorded failure the gate opens no sooner than the backoff less one second, the fraction that RFC 3339 text drops |
| Backoff.GateOpensIff | app/backoff.go:28-41 | after a failure the gate is shut exactly until the backoff has passed since the whole second of the failure; without a backoff, an entry, or a readable one it is open |
| Runs.OpenAfterBackoff | app/renew.go:119-123 | a run that begins when the backoff is over does not turn the domain away |
| Retries.BoundedWithdrawalRetries | app/renew.go:397-409 | over any sequence of runs that meet one cert-switched record, with failures persisted, backoff B and sync lag L, at most ceil(9L / (B - 1 s)) of them fail to withdraw before cleanup is forced |
| Retries.Spread | app/renew.go:119-123 | the first and the last of n attempts to withdraw lie n - 1 backoffs less a second each apart, and the last one is remembered |
| Retries.OneVisit | app/renew.go:115-153 | a turn that fails on the withdrawal came a backoff after the failure noted before, and notes its own; any other turn keeps or renews the entry |
| Retries.GivingUpInTime | app/renew.go:387-405 | withdrawals fail only between one and ten sync lags after the switch |
| Retries.ProcessRemembers | app/backoff.go:10-25 | within one process failures persist if and only if they were saved and could be loaded |
| Backoff.FailureState.RecordFailure | app/backoff.go:43-48 | the domain's entry is the whole second of now; no other entry changes |
| Backoff.FailureState.ClearFailure | app/backoff.go:50-55 | the domain's entry is gone; no other entry changes |
| Calendar.TwoMonthsBounds | app/renew.go:158 | two calendar months are 59 to 62 days, on every date |
| Calendar.TwoMonthsLater | app/renew.go:158 | the step keeps the time of day and the day of the month, two months on; where that month lacks the day, it goes on into the next by as many days as are lacking, as Go normalises dates |
| Calendar.MonthStartIs | app/renew.go:158 | each month of each year begins on the day that the Gregorian calendar gives it |
| Calendar.WholeYears | app/renew.go:158 | twelve months from a January are 365 or 366 days by the leap rule, and 4800 months are 146097 days |
| Calendar.MonthOfIs | app/renew.go:158 | a day belongs to one month only |
| Calendar.FallbackOutsideWindow | pkg/certcloset/store.go:20-28 | an 89-day fallback expiry stays outside the renewal window for 27 days |
| Calendar.MonthOf | app/renew.go:158 | the month that contains a day, for all days before and after 1970 |
| Renew.App.StartRollover | app/renew.go:276-325 | association, key and record are written in this order; every failure leaves a prefix of them; the record names the stored certificate's association as the old one, and its waits are the configured numbers of seconds, or 3600 and 300 where they are not positive |
| Renew.App.PriorAssociation | app/renew.go:277-282 | the old association is that of the stored certificate or none; where no call fails and there is one it is that one |
| Renew.App.Publish | app/renew.go:289-291 | the association of a fresh key is added, or the start is given up |
| Renew.App.Persist | app/renew.go:293-316 | key, then record; the record carries the configured waits and an instant of the call |
| Renew.App.PersistRecord | app/renew.go:297-316 | the record is stored with the configured waits, or the view stays as it was |
| Renew.App.ObtainCertificate | app/renew.go:353-365 | the stored certificate changes only to that of the pending key; success means exactly one request |
| Renew.App.NoteSwitch | app/renew.go:368-381 | the record becomes the cert-switched one with the same associations and lag, or nothing changes |
| Renew.App.SwitchCertificate | app/renew.go:353-384 | request, store, note: each outcome with its count of requests, and renewed is the number of certificates that were stored |
| Renew.App.Withdraw | app/renew.go:397-409 | only the old association can go; giving up happens only before ten sync lags are over |
| Renew.App.CloseRollover | app/renew.go:410-415 | key and record are dropped in this order and nothing else changes |
| Renew.App.FinishRollover | app/renew.go:397-417 | a rollover that ends has its old association withdrawn, unless it is older than ten sync lags; a turn that gives up did so before that |
| Renew.App.AdvanceRollover | app/renew.go:329-421 | one phase at most, and none before its wait is over; an unloadable key drops the record; a failed withdrawal is told from other failures and lies between one and ten sync lags after the switch |
| Renew.App.AdvanceAndNote | app/renew.go:141-151 | a failure to advance is noted at an instant of the turn, anything else leaves the failure entry as it was |
| Renew.App.RetryRemoveTLSA | app/renew.go:424-437 | up to three removals come to one; with the pauses of two and four seconds an outage that ends within six seconds is survived |
| Renew.App.ContinueRollover | app/renew.go:126-153 | an existing record, also one that cannot be loaded, takes up the domain's turn; without a record only time passes |
| Renew.App.IsCurrent | app/renew.go:157-182 | a turn ends here if and only if the entry is later than two calendar months after the beginning of the check and its object is not known to be lost; the failure entry is cleared exactly when the object is confirmed; a lost object drops the entry |
| Renew.App.RenewSimply | app/renew.go:208-253 | exactly one request; counted as renewed if and only if one certificate is stored, with the entry that the store gives it; a failed DNS update is no failure, and where no call fails the RRset is replaced |
| Renew.App.StoreAndPublish | app/renew.go:225-244 | the RRset is replaced only after the certificate is stored, by its association, and only where DNS updates, name and signing key call for it; there it is if no call fails |
| Renew.App.RenewDomain | app/renew.go:189-254 | a rollover starts exactly where the configuration, the name and the signing key call for one; a name that begins with "*." is renewed simply and no RRset changes |
| Renew.App.BeginRollover | app/renew.go:195-206 | a started rollover requests, stores and clears nothing; a failed start is noted |
| Renew.App.RenewIfDue | app/renew.go:156-255 | a certificate that outlives the window is not requested and stays as it is; a due domain is renewed or a rollover is started, after the configured pause or three seconds if one is needed, or the failure is noted |
| Renew.App.ProcessDomain | app/renew.go:115-256 | one domain's turn is one of six: in backoff, record unloadable, rollover taken on, certificate current, rollover started, simply renewed; each with all it does to objects, RRset, index, requests, stores, saves and failure entries |
| Renew.App.TakeTurns | app/renew.go:115-256 | each domain of a list has its one turn, in order; the results are the renewed and the failed of these turns; turns that request a certificate or start a rollover are kept apart by the pause |
| Renew.App.Renew | app/renew.go:100-272 | the failure times are those stored, or none if they cannot be loaded; renewed is the number of certificates stored; the index is saved at the end if and only if it is positive; all else is what the turns do |
| Renew.App.OpenRun | app/renew.go:100-104 | the failure times are those of the bucket, or none if it cannot be read |
| Renew.App.CloseRun | app/renew.go:258-265 | the index is saved once if anything was renewed; otherwise nothing is written |
| Renew.App.RenewConfigured | app/renew.go:46-67 | the same for the configured domains without duplicates and ignored ones |
| Renew.SelectDomains | app/renew.go:46-67 | exactly the configured domains that are not ignored, each once |
| Renew.PlainNamesSuit | app/renew.go:115-117 | domains with lower-case names and no final dot never own the RRset of another one, so any list of them suits |
| Renew.PatientIffCovers | app/renew.go:297-304 | the waits cover cache lifetime and sync lag exactly if the configuration's own two numbers, or their defaults, do |
| Turns.AdvanceTurn | app/renew.go:140-152 | taking a rollover on and noting its failure make a turn that touches no other domain |
| Turns.CurrentTurn | app/renew.go:160-173 | a check that finds the certificate current and notes it makes such a turn |
| Turns.StartTurn | app/renew.go:195-206 | so do a check that finds it due, a start, and the noting of its failure |
| Turns.SimpleTurn | app/renew.go:207-254 | so do a check, a simple renewal, and the noting of its outcome |
| Turns.BranchEarlier | app/renew.go:119-156 | what a branch of the loop does it also does as seen from the moment before the gate |
| Turns.UnloadableTurn | app/renew.go:128-139 | so does a record that cannot be loaded |
| Runs.StoresCounted | app/renew.go:107-265 | the certificates counted as renewed are those that were stored, over all turns |
| Runs.OneRequestEach | app/renew.go:115-256 | a run makes at most one request for each listed domain and none for another |
| Runs.EntryTells | app/renew.go:119-253 | after a run a listed domain's failure entry is the stamp of its failure if its turn failed, gone if its certificate was confirmed or it was renewed simply, and otherwise as before |
| Runs.FailedAreThose | app/renew.go:108-271 | the reported domains are exactly those whose turns failed |
| Runs.AskedApart | app/renew.go:109-113 | two turns of a run that request a certificate or start a rollover end at least the configured pause, or three seconds, apart |
| Runs.WildcardTurn | app/renew.go:116-117 | the turn of "*." followed by a name starts and advances no rollover and changes no RRset |
| Runs.RunKeepsWaits | app/renew.go:297-313 | every record that a run leaves has the configured waits or their defaults, if every one it found had |
| Runs.RequestedAfterTheWait | app/renew.go:343-358 | in any run a rollover's certificate is requested only when its record is as old as the configured number of seconds, or an hour |
| Runs.RenewedIsPublished | app/renew.go:223-253 | where no call fails, a simply renewed domain ends the run with its new certificate and with that certificate's association alone, or with the RRset it had if none is to be published |
| Runs.CurrentIsNotRequested | app/renew.go:156-173 | a run requests nothing for a domain without a record whose object exists and whose entry outlives the window until the run ends |
| Runs.CurrentOverRuns | app/renew.go:156-173 | the same over any number of runs, of one process or of several that each find the index saved |
| Runs.DueIsRequested | app/renew.go:156-239 | a due domain behind an open gate, without a rollover and not to have one, is requested exactly once, unless its record cannot be loaded, which is a failure |
| Runs.LongLivedIsUpToDate | app/renew.go:156-173 | a domain without a record whose object exists and whose entry is more than 62 days beyond an instant is up to date until then |
| Runs.LongLivedIsNotRequested | app/renew.go:156-173 | no later run that ends more than 62 days before a certificate expires requests one for its domain |
| Runs.FallbackIsUpToDate | pkg/certcloset/store.go:18-28 | a simple renewal that stored a certificate without a readable expiry leaves the domain up to date for 27 days |
| Runs.FallbackIsNotRequestedAgain | pkg/certcloset/store.go:18-28 | after it no run that ends less than 27 days later, of this process or of a later one, requests a certificate for the domain |
| Runs.TurnMovesOnlyItsOwn | app/renew.go:115-256 | a turn leaves objects, index entry, failure entry and requests of every other domain unchanged, and its RRset unless they share an owner |
| Runs.OtherDomainsUntouched | app/renew.go:115-256 | a run leaves record, pending key, certificate, index entry and failure entry of every domain not in the list unchanged, and its RRset unless a listed domain owns it |
| Runs.OtherPlainDomainsUntouched | app/renew.go:115-256 | among lower-case names without a final dot it leaves the RRset unchanged as well |
| Runs.LedgerExtends | app/renew.go:107-256 | one more turn keeps the books of the loop in order |
| Daemon.RunRenewDaemon | app/daemon.go:190-207 | over the whole life of a process, with any number of runs, domain lists and failures: the runs follow one another from the bucket it found to the one it leaves, in each a domain has at most one ACME request, none that is up to date after one run is requested before that ends, the write-back invariant holds, and if the configuration's own two numbers cover cache lifetime and sync lag there is no DANE gap at any moment |
| Daemon.RunWith | app/daemon.go:190-207 | the same for a process that has opened its closet |
| Daemon.Serve | app/daemon.go:190-207 | a run at once and one at every tick or trigger, with only time passing between them |
| FaultFree.CompleteRollover | app/renew.go:89-421 | without faults, whatever the waits and wherever a due domain with an open gate stands in the lists of three runs, the second and third late enough: the first starts a rollover and the third ends it, with exactly one request and one store, no record, no key, and one association |
| FaultFree.CompleteRollovers | app/renew.go:89-421 | without faults any number of rollovers, each of three runs of the loop once the certificate is due, request one certificate each, take the domain from rest to rest, and leave the last certificate's association alone |
| FaultFree.ThreeVisits | app/renew.go:115-256 | three such runs make one round of a rollover |
| FaultFree.FirstRun | app/renew.go:156-206 | a run starts a rollover for a due domain without a record whose gate is open |
| FaultFree.LaterRun | app/renew.go:119-153 | a run that comes after the wait takes the rollover one phase on |
| FaultFree.GateStaysOpen | app/renew.go:119-123 | a turn that neither fails nor clears leaves the gate open for the next run |
| FaultFree.RoundConserves | app/renew.go:276-421 | a rollover takes a domain at rest to rest, with the new key's association alone in the RRset |
| FaultFree.RoundsConserve | app/renew.go:276-421 | the same over any number of rollovers one after the other, by induction |
| LockProtocol.RunInv | pkg/certcloset/lock.go:47-197 | in every run of any number of instances: tokens are used by one instance, a refresher runs only while its lock is held, retired tokens are never written again |
| LockProtocol.NoForeignDelete | pkg/certcloset/lock.go:165-197 | a release deletes only a record that carries its own, non-empty token |
| LockProtocol.StaleIff | pkg/certcloset/lock.go:65-73 | a lock is over once its expiry has come; without one, five minutes after its acquisition; one that does not decode, always |
| LockProtocol.NoResurrection | app/lock.go:12-40 | after the refresher is stopped, or a crash, no record with that token is ever written |
| LockProtocol.ReleaseRetires | app/lock.go:36-39 | leaving the held state stops the refresher and retires the token |
| LockProtocol.Reduction | pkg/certcloset/lock.go:47-197 | each undisturbed S3 call is an atomic acquire, refresh or release, or invisible |
| LockProtocol.AcquireKeeps | pkg/certcloset/lock.go:107-139 | an atomic acquisition keeps all leases disjoint |
| LockProtocol.RefreshKeeps | pkg/certcloset/lock.go:142-161 | an atomic refresh keeps all leases disjoint |
| LockProtocol.ReleaseKeeps | pkg/certcloset/lock.go:165-197 | an atomic release keeps all leases disjoint |
| LockProtocol.LeasesDisjoint | pkg/certcloset/lock.go:47-161 | in every undisturbed run the leases of different tokens, from acquiring put to last written expiry or release, have no instant in common, even when a put reports failure after taking effect |
| LockProtocol.NoTakeover | pkg/certcloset/lock.go:113-121 | an undisturbed acquisition succeeds only when every earlier lease is over |
| LockProtocol.ClaimKeepsDisjointIffStale | pkg/certcloset/lock.go:93-121 | an acquiring put, whatever it overwrites, keeps leases disjoint if and only if that is stale by then, or its own lease already is |
| LockProtocol.MutualExclusionCanFail | pkg/certcloset/lock.go:81-97 | without the condition two instances can hold the lock at once, by a concrete run |
| LockProtocol.ExtendKeepsDisjointIff | pkg/certcloset/lock.go:142-161 | the unconditional put of a refresh, over whatever object or none, keeps leases disjoint if and only if nobody else took the lock between the beginning of the own lease and its new end |
| LockProtocol.ExtendKeepsDisjointIffOwn | pkg/certcloset/lock.go:159-160 | over another lock whose lease began before the new expiry it does so if and only if the object is still the own one |
| LockProtocol.LateRefreshBreaksExclusion | pkg/certcloset/lock.go:142-161 | a refresh that was held up overwrites the next owner, and two instances hold the lock at once although no acquisition raced, by a concrete run |
| LockProtocol.KeepAlive | app/lock.go:10-33 | with ticks every minute and a five-minute lease there is no gap while at most three refreshes in a row fail |
| LockProtocol.FourFailuresBreak | pkg/certcloset/lock.go:18 | four failures in a row can leave a gap |
| LockProtocol.LeaseGrowsOver | pkg/certcloset/lock.go:159 | while an instance has the lock nothing shortens its lease, whatever others do |
| LockProtocol.CriticalSection | app/lock.go:10-33 | a holder whose refreshes are punctual and fail at most three times in a row is not overtaken in an undisturbed run |
| LockProtocol.LoggedTookEffect | app/lock.go:26-31 | the log of a holder's refreshes determines which of them are in force at each step |
| Lock.Instance.LoadLock | pkg/certcloset/lock.go:47-74 | the answer is the lock object of one instant of the call |
| Lock.Instance.PutLock | pkg/certcloset/lock.go:76-102 | success means that this record was written in this call; refusal, where no call fails, that a lock appeared |
| Lock.Instance.AcquireLock | pkg/certcloset/lock.go:107-139 | success means a new token, over a record seen in this call that was stale when overwritten, or over none; where no call fails, refusal means that a lock was there |
| Lock.Instance.RefreshLock | pkg/certcloset/lock.go:142-161 | success means that this instance's record was extended to five minutes from an instant of the call; where no call fails, failure means that it was not its own any more |
| Lock.Instance.ReleaseLock | pkg/certcloset/lock.go:165-197 | the token is forgotten in every case; where no call fails the lock is gone unless it was another's or changed meanwhile |
| Lock.Instance.DeleteLock | pkg/certcloset/lock.go:180-197 | the deletion takes effect only on the record that was seen; where no call fails that record is gone |
| Lock.Instance.StopRefresh | app/lock.go:36-39 | the refresher has ended and the token is retired |
| Lock.Instance.KeepRefreshing | app/lock.go:20-34 | every tick keeps the lock held and is logged with its outcome; where no call fails, all refreshes succeed as long as the lock object is the instance's own |
| Lock.Instance.WorkAndRelease | app/renew.go:95-97 | the refresher ends before the release, so the token is never written again |
| Lock.Instance.WorkUnderLock | app/renew.go:89-98 | from acquisition to the end of the refresher no other instance takes the lock, if the run is undisturbed and refreshes are punctual with at most three failures in a row; where no call fails, the lock is refused only because one was there, and all refreshes succeed while the lock object is the instance's own |
| Lock.Instance.Inspect | pkg/certcloset/lock.go:113-121 | only a stale or absent record is gone on with; where no call fails, anything else was a fresh lock |
| Lock.Instance.Prepare | pkg/certcloset/lock.go:123-133 | the new record has a token never used before and a lease of five minutes |
| Lock.Instance.PutClaim | pkg/certcloset/lock.go:133-139 | success means that the prepared record was put over what was seen, stale by then, and the refresher started |
| LocalCloset.GetDiff | pkg/certcloset/index.go:27-38 | exactly the domains with another expiry elsewhere, each once; a missing entry reads as the zero time |
| LocalCloset.SafeIff | app/sync.go:24-40 | safe names are the non-empty ones without "..", slashes of either kind and control characters |
| LocalCloset.HostNamesAreSafe | app/sync.go:24-40 | host names are safe, wildcards among them |
| LocalCloset.NoDiff | pkg/certcloset/index.go:27-38 | with non-zero expiries the difference is empty if and only if the local index has all remote entries |
| LocalCloset.ZeroExpiryIsNeverSynced | pkg/certcloset/index.go:30 | for any two indexes, an entry with the zero expiry is found different if and only if the other index has the domain with another expiry |
| LocalCloset.RemovalSparesOthers | app/sync.go:100 | removing a domain's directory spares all others if and only if the domain is not named "." |
| LocalCloset.Disk.WriteFiles | app/sync.go:44-68 | success means both files; failure leaves the files as they were, or the certificate new and the key old, never partial |
| LocalCloset.Disk.RemoveAll | app/sync.go:100 | success removes the directory; failure may remove part; other directories stay unless the domain is "." |
| LocalCloset.LocalCertCloset.Open | pkg/certcloset/localCloset.go:43-64 | the index is what the file holds, which is created empty if absent |
| LocalCloset.LocalCertCloset.CheckIntegrity | pkg/certcloset/localCloset.go:69-90 | exactly the entries with unsafe names or a missing file |
| LocalCloset.LocalCertCloset.SaveIndex | pkg/certcloset/localCloset.go:121-134 | the file holds the index, or is unchanged on failure |
| Sync.NeverAhead | app/sync.go:115-157 | for every pattern of failures, a local entry that is new has both files as copies of the stored object, and an old one has its files or is still different from the remote one |
| Sync.Converges | app/sync.go:70-169 | without a reported failure local and remote index are equal and every listed domain has both files |
| Sync.EndsEarly | app/sync.go:110-113 | the early return leaves both indexes; they are equal if and only if no removal failed |
| Sync.UnreportedFailure | app/sync.go:110-113 | a failed removal of a stale domain goes unreported when there is nothing else to do |
| Sync.Settled | app/sync.go:70-169 | the three passes together come to the outcome stated for a sync |
| Sync.ProgressFurther | app/sync.go:115-157 | handling one more domain keeps what was achieved for the others |
| Sync.App.WriteCertificate | app/sync.go:52-68 | unsafe names write nothing; success means both files hold this certificate |
| Sync.App.DropVanished | app/sync.go:119-139 | a listed certificate without an object leaves both indexes, and the disk unless that is reported |
| Sync.App.CopyOne | app/sync.go:147-155 | the local index learns of a certificate only when both files are written |
| Sync.App.FetchOne | app/sync.go:115-157 | one domain ends as copied, vanished, or reported and still different; no other domain changes |
| Sync.App.FetchAll | app/sync.go:115-157 | the same for all domains of the difference, each retrieved exactly once |
| Sync.App.DropDamaged | app/sync.go:84-88 | the local index keeps exactly the entries whose files are both there |
| Sync.App.RemoveStale | app/sync.go:90-107 | exactly the unlisted domains are removed or reported, from the disk before the index; an unsafe name is never removed |
| Sync.App.Reconcile | app/sync.go:80-157 | the passes in order; the early end happens exactly when nothing changed and nothing differs |
| Sync.App.SyncWith | app/sync.go:84-169 | the index is saved last; an error is returned if a domain or the save failed |
| Sync.App.SyncCerts | app/sync.go:70-169 | never ahead of the disk; converged on success; loses no remote entry whose object exists; succeeds where nothing fails and no name or object is bad |
| Sync.NothingLeft | app/sync.go:70-169 | where a sync ends without an error, no domain of the remaining remote index differs from the intact local entries |
| Sync.App.Settle | app/sync.go:80-157 | the passes come to the outcome stated for a sync |
| Sync.App.Open | app/sync.go:70-83 | a sync begins from the refreshed remote index and the index file, or not at all; where no call fails and both can be read it begins |
| Sync.App.SyncOnce | app/sync.go:70-169 | a sync from regular indexes that ends without an error leaves nothing for the next one to retrieve, and agreement if it did not end early |
| Sync.App.SyncAgain | app/sync.go:109-113 | a sync that finds nothing different retrieves nothing, and one that finds agreement changes nothing |
| Sync.App.SyncTwice | app/sync.go:70-169 | two syncs, of which the first ends without an error, retrieve what the first had to, each domain once, and come to an outcome of the first |
| Crypt.PaddingRoundTripIff | pkg/certcloset/crypt.go:18-33 | unpadding undoes padding if and only if the padding length fits into a byte |
| Crypt.PaddingRoundTrip | pkg/certcloset/crypt.go:18-33 | for AES blocks it always does, and whole blocks result (section 6.3 of RFC 5652) |
| Crypt.UnpadIsLax | pkg/certcloset/crypt.go:28-32 | for every padding length, padding bytes before the last are not checked |
| Crypt.UnpadGives | pkg/certcloset/crypt.go:24-33 | what unpadding gives is the text without as many bytes as its last byte says; a byte of zero or too many is an error |
| Crypt.XorByteIs | pkg/certcloset/crypt.go:108-109 | a bit of the exclusive-or is set exactly where those of the two bytes differ |
| Crypt.OneBlockDecrypts | pkg/certcloset/crypt.go:103-109 | each byte of the first block is that of the cipher exclusive-or that of the initialization vector; with a zero vector it is the cipher's own |
| Crypt.CbcRoundTrip | pkg/certcloset/crypt.go:108-109 | chained decryption undoes chained encryption (section 6.2 of NIST SP 800-38A), by induction over blocks |
| Crypt.DecryptBlocks | pkg/certcloset/crypt.go:103-109 | decryption in place, last block first, gives what the chaining mode defines |
| Crypt.EncryptAES | pkg/certcloset/crypt.go:35-61 | magic, nonce and sealed text, 34 bytes more than the text, which decrypt to it; an error exactly for a key of other than 32 bytes or no randomness |
| Crypt.EnvelopeRoundTrip | pkg/certcloset/crypt.go:55-92 | every envelope decrypts to what was sealed |
| Crypt.LegacyRoundTripIff | pkg/certcloset/crypt.go:63-111 | a legacy ciphertext decrypts to its plaintext if and only if its initialization vector does not begin with the envelope's magic |
| Crypt.LookalikeFails | pkg/certcloset/crypt.go:67-69 | a legacy ciphertext that looks like an envelope never decrypts to its plaintext |
| Crypt.DecryptAES | pkg/certcloset/crypt.go:63-71 | the dispatch; an envelope or a wrong key leaves the buffer unchanged |
| Crypt.DecryptAESGCM | pkg/certcloset/crypt.go:73-93 | success exactly for what was sealed under this key and nonce |
| Crypt.DecryptAESLegacyCBC | pkg/certcloset/crypt.go:95-111 | in place; short and ragged texts are errors and are left unchanged |
| AccountProtocol.AccountAgreement | pkg/buckcert/leUser.go:122-170 | all instances that ever have an account, at whatever times, have the same key, if no account appears between a look and its put |
| AccountProtocol.KeyStaysOver | pkg/buckcert/buckcert.go:77-107 | once an account is stored its key never changes, through any number of registration saves |
| AccountProtocol.RunAgrees | pkg/buckcert/leUser.go:122-170 | at every step whoever has an account has the stored one |
| AccountProtocol.OverwritingAgreesIff | pkg/certcloset/state.go:126-150 | storing over an account with another key breaks agreement exactly if an instance already has it |
| AccountProtocol.AgreementCanFail | pkg/certcloset/state.go:124-125 | the documented race: two instances end up with different keys, by a concrete run |
| LeUser.Instance.LoadACMEUser | pkg/certcloset/state.go:84-106 | the answer is the stored account of one instant of the call |
| LeUser.Instance.StoreIfNotExists | pkg/certcloset/state.go:126-150 | stored means that this call put the account; where no call fails it is stored or one is there |
| LeUser.Instance.LoadLocalOrNewUser | pkg/buckcert/leUser.go:172-190 | the local account if there is one, a new one if there is no file, an error if the file is unreadable |
| LeUser.Instance.LoadOrCreateUser | pkg/buckcert/leUser.go:122-170 | the account returned was the stored one at a step of the call; only where none was stored does the instance put one, which is that of its own file, or a new one where there is no file; an unreadable file puts none; where no call fails, only an unreadable object or one that has gone again is in the way |
| LeUser.Instance.PutsItsProposal | pkg/buckcert/leUser.go:136-190 | every account that the call puts is the one of the instance's file if there is one, and otherwise unregistered with the drawn key |
| LeUser.Instance.StoreOrReload | pkg/buckcert/leUser.go:145-169 | the proposed account is put, or one that has appeared is loaded |
| LeUser.Instance.Reload | pkg/buckcert/leUser.go:157-169 | the account that another instance stored |
| LeUser.Instance.Register | pkg/buckcert/buckcert.go:77-107 | registration changes nothing but the registration; an already registered account causes no call, and one that the CA does not accept is not saved |

`Publish`, `Persist`, `ObtainCertificate`, `NoteSwitch`, `PersistRecord`, `Withdraw`, `CloseRollover`,
`AdvanceAndNote`, `StoreAndPublish`, `PriorAssociation`, `NoteStart`, `Inspect`, `Prepare`, `PutClaim`,
`DeleteLock`, `Clear`, `FetchNext`, `Settle` and the like are parts of one source function, split so that each has a
contract of its own.

## Left out

- Renew.App.Renew: runs with the lock taken to be held; `Lock.Instance.WorkUnderLock` models the lock around it.
- Retries.BoundedWithdrawalRetries: asks that failures are saved and loaded between the runs (`Remembered`), because saving is best effort and a lost entry opens the gate, and that the backoff is positive and renewal not forced.
- Runs.FallbackIsNotRequestedAgain: where a later process takes over, the index must have been saved before (`Restarted`); saving it is best effort.
- Calendar.TwoMonthsBounds: UTC only; a local time zone with daylight saving shifts the step by up to an hour.
- Calendar.FallbackOutsideWindow: UTC only, for the same reason.
- Renew.App.RenewConfigured: domains that the Traefik and config-server clients add are part of the list it is given.
- CertCloset.CertCloset.StoreCertificate: of the encrypted private key only that it is in the object; the encryption itself is `Crypt`.
- CertCloset.CertCloset.RetrieveCertificate: where no call fails a stored private key is taken to decrypt, as it does if it was stored under the same configuration.
- CertCloset.CertCloset.PutWithRetry: at most how many attempts are made and how long the pauses are is not stated, since calls may take any time.
- Lock.Instance.ReleaseLock: does not model a missing ETag, with which the deletion is unconditional.
- LocalCloset.LocalCertCloset.CheckIntegrity: a stat error other than not-found counts as present in the code and does not occur in the model, except below the index file.
- Sync.App.FetchOne: a domain reported twice in one pass is listed once; only the wording of the error depends on it.
- LeUser.Instance.Register: saving to a local file where there is no user store.
- LeUser.Instance.LoadOrCreateUser: configuration without a user store, where the account lives in a local file only.
- Crypt.DecryptAES: the block cipher and the authenticated mode are parameters with stated laws.
- CertCloset.CertCloset.RetrieveIndex: an index object of the wrong JSON types, whose decoding may fail half-way, and one whose map is `null`.
- Eventual saving of the index: a failed final save is not retried by a later run that renews nothing (app/renew.go:258-265).
- A put that takes effect after its instance has crashed or given up on it.
- Garbage that a reset rollover leaves behind: its association stays in the RRset, which harms continuity not at all.
- Configuration that changes in mid-rollover, and a state store that is absent (used by unit tests only).
- 64-bit overflow of Go durations and the precision of stored times other than the failure stamps.
- Lower-casing and control characters beyond ASCII and Latin-1; escapes in DNS names.
- CAA records: no contract says whether they have been updated.
- SOA discovery, TSIG, DNS wire messages, X.509 and PEM parsing, the ACME exchange.
- The daemon's signals and timing of ticks, HTTP servers, metrics, logging, command line and configuration parsing: plumbing.
- Traefik and HAProxy output files and the clients that discover domains: formatting and network access.
