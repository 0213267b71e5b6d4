# LeaveSafe, verified

LeaveSafe watches a laptop that has been left alone and sounds an alarm, on the laptop and on
the phones paired with it, when something moves. This project models the parts of it whose
promises are hardest to see by reading one function, and proves those promises for every
input, every run or every interleaving.

- **Event history** (`Rotate`, `Retention`, `EventLog`). An append-only log is rotated by size and read
  backwards through a window that doubles, then through older generations. The specification
  is "the last n of a list"; the code gets there by byte offsets, a dropped first fragment,
  skipped lines and file renames.
- **Pairing policy** (`Auth`, `AuthHistory`, `AuthAnswers`, `Population`, `RateLimit`,
  `Pending`). Per-address lockout with three-stage eviction, session cap and expiry, a token
  bucket, slots for sockets that have not paired. The bounds are proved over whole runs
  (`AuthHistory.Trace`); `AuthAnswers` says what every call is answered by the calls before it.
- **Handshake and sealed channel** (`Handshake`, `Session`, `Client`, `SealWindow`). Proofs over
  nonces, two directional counters over an AEAD, and the switch from clear to sealed under a
  write lock, stepped goroutine by goroutine.
- **Codes and check digits** (`Paircode`, `Luhn`, `Digits`). A base 32 written through a 16-bit
  accumulator that overflows, decimal keys packed into bytes, forgiving input, a check digit.
- **The hub** (`HubState`, `HubHistory`, `HubSafety`, `HubChanges`, `HubLockout`, `Hub`).
  `HubState` says what every operation makes of the state, `HubHistory` proves what every run
  keeps, `HubSafety` states what that means to the owner, `HubChanges` exactly which operations
  change what, `HubLockout` carries the lockout's bound over to the hub's sockets, and `Hub` is
  the object whose methods are those operations.
- **Small algorithms** (`InputLine`, `Layout`, `Update`). The line editor, escape-aware
  truncation, version order.

`dafny verify dfyconfig.toml` checks the whole project. Code that changes things step by step
is a class or a loop here too, proved against a function of the state before; what the source
promises is then proved of those functions.

## What is assumed

Times are nanoseconds since Go's zero time. The AEAD (RFC 8439, section 2.8) and HMAC are ideal
and HKDF (RFC 5869) is injective: a sealed body or a proof is known by what it was made from.
JSON records hold no raw newline (RFC 8259, section 7) and parse back to what was encoded.
`net.SplitHostPort`, `net.ParseIP`, `unicode.ToUpper` and the Unicode categories are functions;
what is needed of them is stated in `Paircode.Sound`
and `InputLine.AsciiUnmarked`. New session tokens and socket
identities have not been used before.

## Where the code is not what one would expect

- The check digit doubles by the parity of the payload's length, so the last payload digit is
  not doubled, unlike the scheme of ISO/IEC 7812. Trading that digit with the check digit is
  therefore never noticed: `Luhn.SwapCaught` gives the exact condition.
- A reader can look further back than the writer keeps: `ReadLast` always looks at two
  generations, while a policy may keep one, or none when its file count is negative.
  `EventLog.StaleGenerationsDecide` says exactly when reading back is right all the same: when
  the generations beyond hold nothing from an earlier policy.
- A sensor test raises an alarm even while that sensor is being held quiet: only alerts ask
  (`HubSafety.InputOnlyByTest`).
- A paired phone is not meant to switch sensors off one at a time on an armed machine without the
  PIN, but it can: it has a sensor tested, which raises an alarm of it, and answers by disabling
  it (`HubSafety.TestThenDisable`). `HubSafety.PhonesSwitchOffExactlyTestable` says which sensors.
- The input line counts characters where the screen counts columns. Wide characters push it past
  the last column and put the cursor in the wrong cell (`InputLine.WideCharactersSpill`);
  `InputLine.RowFitsExactly` and `InputLine.CursorInPlaceExactly` say exactly for which lines that
  cannot happen. A masked line is always right.
- A lockout can be pushed out of a full table by other addresses' lockouts, whatever the policy
  (`Population.EvictionForgets`). `Population.LockoutHoldsExactly` says when the bound holds all the
  same: exactly when those who make attempts are no more than the table has room for, 256 addresses
  in the daemon. `HubLockout.HubLockoutHoldsExactly` says it of the hub's sockets.

## Model

| member | source | states |
|---|---|---|
| Rotate.RunKeepsWholeRecentWrites | internal/rotate/rotate.go:110-166 | over any run of writes and forced rotations, from any directory, the files from the oldest kept generation to the live one consist of whole writes, and end to end they are a suffix of everything there was and everything written since |
| Rotate.RunStaysUnderCeiling | internal/rotate/rotate.go:14-40 | kept files and live file together never exceed (MaxFiles + 1) times the larger of the budget and the longest single write (or file already there) |
| Rotate.ChunkRunIsRun | internal/rotate/rotate.go:110-132 | a directory kept as lists of whole writes and the byte directory take the same steps: no write is split between files |
| Rotate.ChunkRunSuffix | internal/rotate/rotate.go:136-166 | the whole writes still kept are a suffix of the write history |
| Rotate.ShiftForgetsOldest | internal/rotate/rotate.go:136-166 | rotation forgets only from the old end |
| Rotate.StepSuffix | internal/rotate/rotate.go:110-166 | one append or rotation keeps what is kept a suffix of the history |
| Rotate.Writer.constructor | internal/rotate/rotate.go:66-99 | attaches to the live file that is there or creates it, with defaults filled in, and the tracked size is the file's length |
| Rotate.Writer.Write | internal/rotate/rotate.go:110-132 | an open writer rotates exactly when a non-empty file would outgrow the budget, then appends; a closed one refuses and changes nothing; tracked size stays the live file's length |
| Rotate.Writer.RotateLocked | internal/rotate/rotate.go:136-166 | the countdown of renames shifts every kept generation by one, drops the oldest, leaves files beyond it alone and starts an empty live file |
| Rotate.Writer.Rotate | internal/rotate/rotate.go:169-176 | a forced rotation is the same shift; a closed writer refuses |
| Rotate.Generations | internal/rotate/rotate.go:199-211 | lists exactly the generations that exist up to the file count asked for, or up to two when none is, newest first |
| Retention.WritesThatFitStay | internal/rotate/rotate.go:110-132 | any run of writes that fits the budget behind what is in the live file ends with the live file followed by all of them, and every other generation as it was |
| Retention.FirstThatDoesNotFit | internal/rotate/rotate.go:110-166 | the first write that does not fit behind something else is alone in the live file; everything before it is generation 1, the others are one generation older, those beyond the kept ones untouched |
| Retention.RecentBytesKept | internal/rotate/rotate.go:110-166 | how long a byte is kept: over any run of writes nothing that was in the live file, nor anything written after it, is forgotten before MaxFiles times (MaxBytes less the longest write, plus one) bytes have been written since |
| Retention.DefaultCeiling | internal/rotate/rotate.go:19-28 | under the default policy two generations are kept and the family never exceeds six mebibytes, longer writes and files apart |
| EventLog.ReadBack | internal/eventlog/eventlog.go:82-153 | after any run of logged events and rotations, starting on a record boundary and with at least one generation kept, what a reader of that policy finds is a suffix of the whole history, and the last n of it is the last n of the history as far back as the disk goes |
| EventLog.NothingOnDiskMissed | internal/eventlog/eventlog.go:122-153 | a reader that asks for enough gets every event of every generation it looks at, older generations first |
| EventLog.RecentEventsRead | internal/eventlog/eventlog.go:82-153 | no event is lost early: until as many bytes have been logged as the kept generations must hold, the last n read are the last n logged |
| EventLog.StaleGenerationsDecide | internal/eventlog/eventlog.go:107-120 | for a reader that looks further back than the writer keeps, as one of two generations does when the writer keeps one or none: reading back is right after every run exactly when the generations beyond hold no event of an earlier policy |
| EventLog.HistorySuffix | internal/eventlog/eventlog.go:82-97 | every run of calls leaves the live file ending on a record and the readable events a suffix of everything logged |
| EventLog.TailEvents | internal/eventlog/eventlog.go:156-187 | for any file content the doubling window terminates and gives exactly the last n events of parsing the whole file |
| EventLog.ParseTail | internal/eventlog/eventlog.go:191-227 | one window gives a suffix of the file's events, and all of them when it covers the file |
| EventLog.TailEventsSuffix | internal/eventlog/eventlog.go:191-227 | starting in the middle of a file and dropping the first fragment finds a suffix of the whole file's events |
| EventLog.TailLinesSuffix | internal/eventlog/eventlog.go:191-242 | splitting a byte suffix and dropping its first line gives a suffix of the full split |
| EventLog.LinesRejoin | internal/eventlog/eventlog.go:229-242 | no line holds a newline and the lines put back together are the file, up to one final newline |
| EventLog.SplitLines | internal/eventlog/eventlog.go:229-242 | the splitting loop gives those lines, for any bytes |
| EventLog.DecodeLines | internal/eventlog/eventlog.go:211-227 | blank and unparsable lines are skipped, the rest kept in order |
| EventLog.ReadLast | internal/eventlog/eventlog.go:122-153 | fails exactly when there is no live file; otherwise gives the last n events of the live file and of as many older generations as the file count asks for, two when it asks for none, in write order, n being 1 for zero or less |
| EventLog.TornTailMerges | internal/eventlog/eventlog.go:191-227 | after a torn write the next record joins the fragment: both are read as whatever the joined line decodes to, everything before them unharmed |
| EventLog.Logger.constructor | internal/eventlog/eventlog.go:62-72 | opens the writer with defaults and remembers the file count the reader will use |
| EventLog.Logger.Log | internal/eventlog/eventlog.go:82-97 | stamps, encodes and appends one newline-ended record; an event that does not encode is dropped |
| AuthHistory.LockoutBound | internal/auth/auth.go:205-296 | with a clock that does not go back, every half-open window one lockout period long holds at most MaxAttempts wrong secrets compared for an address, keys and PINs together, counted since it last got one right, since the last rotation and since its record was last evicted while not stale; stale evictions are counted through |
| AuthHistory.LockoutBoundUnlessEvicted | internal/auth/auth.go:205-296 | the same bound on all wrong secrets since the last success or rotation, for an address whose record is only ever evicted by the stale stage |
| Population.LockoutHoldsExactly | internal/auth/auth.go:283-339 | for any population of addresses and any one of them: every run with a forward clock in which only the population makes attempts holds that address to MaxAttempts wrong secrets in every window one lockout period long, evictions or none, exactly when the population is no larger than the table |
| Population.EvictionForgets | internal/auth/auth.go:298-339 | the failing run, under every policy: as many others as the table has room for push a lockout out, and the address it happens to has one secret more compared, at one instant, than its allowance; nobody outside the population takes part |
| Population.HeldWhenRoom | internal/auth/auth.go:283-296 | with room for everybody who makes attempts the bound holds of any address, counting every wrong secret since its last success or the last rotation |
| Population.NobodyLost | internal/auth/auth.go:283-296 | with room for everybody no record is ever pushed out before it has gone stale |
| AuthHistory.ReachableBounds | internal/auth/auth.go:283-355 | in every reachable state both tables are within their bounds, every failure count is below MaxAttempts, the empty address is never tracked and the key is a valid one |
| AuthHistory.ReachableLockouts | internal/auth/auth.go:205-279 | with a clock that does not go back, lockedUntil is at most lastSeen plus the lockout period |
| AuthHistory.LockoutLastToGo | internal/auth/auth.go:306-339 | eviction keeps every other record as it was, and a live lockout goes only when every record is locked, alone, and as the one ending soonest |
| AuthHistory.EvictionFrees | internal/auth/auth.go:306-339 | making room on a table with anything in it frees at least one slot and changes no record it keeps |
| AuthHistory.SessionsWereGranted | internal/auth/auth.go:205-248 | every session in the table was granted to somebody who presented the key still in force, and has not been removed or rotated away since |
| AuthHistory.EmptyKeyNeverMatches | internal/auth/auth.go:226-233 | in no reachable state does the empty key pair |
| AuthHistory.AttemptEffect | internal/auth/auth.go:205-296 | what each answer does to the record it is judged under: cleared on success, counted or locked on a wrong secret, only its time noted when nothing was compared |
| AuthAnswers.AliveExactly | internal/auth/auth.go:367-413 | asked at any time after any run, whatever the clock does: a session is alive exactly when its grant stands and every look at it since, this one included, came less than the total limit after the grant and less than the idle limit after the last touch, times read off the calls |
| AuthAnswers.UsedToTheLimit | internal/auth/auth.go:373-413 | a session touched before each idle limit is out is alive exactly until its total limit |
| AuthAnswers.SweepLeavesAlive | internal/auth/auth.go:416-436 | a sweep leaves exactly the sessions alive in that sense |
| AuthAnswers.SessionsAsTold | internal/auth/auth.go:367-425 | in every reachable state the sessions in the table and their times are those the calls and answers tell |
| AuthAnswers.KeyAnswered | internal/auth/auth.go:205-248 | what a pairing attempt is answered after any run: locked out exactly for one lockout period from the wrong secret that made up the allowance, else full exactly when as many sessions are alive as may be, else granted exactly for the key in force, dashes aside; wrong secrets are counted down to the next lockout |
| AuthAnswers.PinAnswered | internal/auth/auth.go:254-279 | and a PIN: the same lockout and the same count |
| AuthAnswers.GoesBefore | internal/auth/auth.go:298-339 | who goes when room is made: long quiet addresses all together before anybody else, an unlocked one before a locked one, of the unlocked the one seen longest ago, of the locked the one with least left to run |
| AuthAnswers.DashesIgnored | internal/auth/auth.go:537-545 | a dash anywhere in a key makes no difference |
| AuthAnswers.OthersStay | internal/auth/auth.go:537-545 | and nothing else is dropped from a key |
| Auth.Manager.constructor | internal/auth/auth.go:130-159 | a manager starts with a valid key, empty tables and a policy with defaults filled in |
| Auth.Manager.Authenticate | internal/auth/auth.go:205-248 | lockout before cap before key; sweeps expired sessions first; a wrong key counts, the last allowed one locks; a right one clears the record and adds one session |
| Auth.Manager.CheckPin | internal/auth/auth.go:254-279 | PIN guesses are counted and locked out in the same record as keys |
| Auth.Manager.Record | internal/auth/auth.go:283-296 | an address's record is found or made, the others untouched unless room had to be made |
| Auth.Manager.EvictLocked | internal/auth/auth.go:306-339 | all stale records, else the unlocked one seen longest ago, else the lockout ending soonest |
| Auth.Manager.OldestUnlockedLocked | internal/auth/auth.go:343-355 | the least recently seen unlocked address, and the empty string exactly when every record is locked |
| Auth.Manager.ValidateSession | internal/auth/auth.go:367-371 | says whether a session is live, dropping it if not, without counting as activity |
| Auth.Manager.TouchSession | internal/auth/auth.go:377-387 | the same, and activity is noted on a live one |
| Auth.Manager.SweepSessions | internal/auth/auth.go:416-436 | removes exactly the expired sessions and says how many |
| Auth.Manager.RemoveSession | internal/auth/auth.go:445-449 | removes one session |
| Auth.Manager.Regenerate | internal/auth/auth.go:453-476 | a new key with no sessions and no records |
| Auth.NormalizeAddr | internal/auth/auth.go:503-511 | never yields the empty string: the bare host when there is one, else the address itself, and a name of its own for no address |
| Auth.GeneratePairingKey | internal/auth/auth.go:514-525 | sixteen digits with a good check digit, the first fifteen as drawn |
| Auth.NewManager | internal/auth/auth.go:130-159 | a supplied key is refused exactly when it is neither empty nor a valid key after dashes are stripped; otherwise it is the key |
| Luhn.CheckDigit | internal/auth/luhn.go:4-22 | brings the payload's weighted sum to a multiple of ten, for a payload of any length |
| Luhn.IsValid | internal/auth/luhn.go:25-37 | accepts exactly the digit strings of two or more whose total is a multiple of ten |
| Luhn.CheckDigitUnique | internal/auth/luhn.go:4-37 | once one appended digit makes a valid number, no other one does |
| Luhn.CheckDigitDecides | internal/auth/luhn.go:4-37 | a digit appended to a payload makes a valid number exactly when it is the check digit |
| Luhn.OneDigitCaught | internal/auth/luhn.go:4-37 | changing any one digit, payload or check, makes a valid number invalid |
| Luhn.SwapCaught | internal/auth/luhn.go:4-37 | swapping two neighbours goes unnoticed exactly when they are equal, are 0 and 9, or are the last payload digit and the check digit |
| RateLimit.RateBound | internal/ws/ratelimit.go:91-110 | between any two calls of any run the messages allowed number at most burst plus rate times forward clock progress, even if the clock steps back |
| RateLimit.TokensAccountedFor | internal/ws/ratelimit.go:91-110 | tokens stay within 0 and burst, and every token spent was there at the start or has been earned since |
| RateLimit.ProgressIsForward | internal/ws/ratelimit.go:91-110 | the progress counted is how far the latest reading seen has moved: steps back and catching up count for nothing |
| RateLimit.LockoutAnswersFirst | internal/ws/ratelimit.go:83-88 | a fresh pairing bucket refuses none of the first MaxAttempts + 3 attempts, so the lockout answers first |
| RateLimit.BurstIsExact | internal/ws/ratelimit.go:83-110 | with the clock standing still the next attempt is the first refused |
| RateLimit.RefusedExactly | internal/ws/ratelimit.go:91-110 | a call is refused exactly when less than a whole token was left of what the bucket held when last full, or at the start, and of what forward progress has earned from then to now, after those allowed since |
| RateLimit.SteadyNeverRefused | internal/ws/ratelimit.go:91-110 | a client that leaves a token's worth of time between messages is never refused |
| RateLimit.QuietThenBurst | internal/ws/ratelimit.go:91-110 | after a quiet time in which a whole burst is earned, the next burst is allowed, however the bucket was used before and whatever the clock does then |
| RateLimit.EarnedIn | internal/ws/ratelimit.go:97-99 | n tokens are earned exactly in n seconds over the rate |
| RateLimit.TokenBucket.Allow | internal/ws/ratelimit.go:91-110 | one call refills from forward progress only, up to the burst, and spends a whole token if there is one |
| RateLimit.NewAuth | internal/ws/ratelimit.go:83-88 | the pairing bucket starts full |
| Pending.PendingConns.Acquire | internal/ws/pending.go:46-56 | a slot is given exactly when both the total and the address's share leave room, and is then counted in both |
| Pending.PendingConns.Release | internal/ws/pending.go:61-75 | gives one slot of that address back, leaving no zero behind |
| Pending.SharesAddUp | internal/ws/pending.go:27-75 | the shares add up to the total and every share kept is at least one |
| Session.NetworkSafety | internal/ws/session.go:160-199 | whatever the network drops, repeats, reorders or injects, the plaintexts accepted are an in-order subsequence of what the peer sealed, each at most once |
| Session.HonestDelivery | internal/ws/session.go:132-199 | frames sealed by the peer and delivered in order are all accepted, whatever was dropped in between |
| Session.NonceInjective | internal/ws/session.go:204-216 | different counters give different nonces and different additional data |
| Session.NonceSpellsCounter | internal/ws/session.go:201-217 | the nonce is four zeroes and then eight bytes that spell the counter, most significant first, and the same eight bytes are the additional data |
| Session.NonceReuseExactlyAtWrap | internal/ws/session.go:132-157 | two frames of one run of seals of a fresh session share a nonce exactly when they are a multiple of 2^64 apart, so never below 2^64 frames |
| Session.NthFrame | internal/ws/session.go:132-157 | frame k of a run of seals carries message k under counter k, wrapped at 64 bits |
| Session.EndToEnd | internal/ws/session.go:132-199 | of the messages a fresh session seals, below 2^64 of them, the session at the other end takes an in-order subsequence, each at most once, over a network that carries its frames and anything made without its key |
| Session.EndToEndHonest | internal/ws/session.go:132-199 | over a network that carries the run as it is, it takes all of them in order |
| Session.DirectionsApart | internal/ws/session.go:107-129 | the two directions of a connection never share a key |
| Session.KeysNameTheirNonces | internal/ws/session.go:107-129 | with nonces of one width a session key belongs to one pair of nonces only |
| Session.Session.Seal | internal/ws/session.go:132-157 | seals under the next counter, which wraps at 64 bits |
| Session.Session.Open | internal/ws/session.go:160-199 | accepts exactly a frame whose counter moves forward and whose body opens under it; a refused frame changes nothing |
| Session.NewSession | internal/ws/session.go:107-129 | fails exactly when the key or a nonce is missing; the two ends' keys are mirror images |
| SealWindow.NoClearAfterAcceptance | internal/ws/client.go:159-218 | in every interleaving of broadcasts and pairings on one connection, whichever writes fail, nothing clear follows the first acceptance or anything sealed on the wire, and each session's written counters strictly increase |
| SealWindow.Serializable | internal/ws/client.go:76-91 | in every interleaving the connection is as the finished jobs left it, run whole one after another, plus at most one job part-way |
| SealWindow.WireIsWhatWasDelivered | internal/ws/client.go:184-218 | the wire holds exactly the messages delivered, in order, each once |
| Client.Client.SendLocked | internal/ws/client.go:184-218 | writes in the clear on an unsealed connection and sealed under the next counter on a sealed one; a failed encoding writes and counts nothing, a failed write has counted; one whole write of SealWindow |
| Client.Client.AcceptAndSeal | internal/ws/client.go:175-182 | the acceptance goes out the way the connection stood, clear or sealed, and the new session is in force after it; one whole job of SealWindow |
| Client.Client.Send | internal/ws/client.go:159-163 | one whole job of SealWindow |
| Client.Client.Unseal | internal/ws/client.go:117-123 | an unsealed connection's frame as it is; of a sealed one only what opens |
| Handshake.ProofSpeaksForOne | internal/ws/handshake.go:86-146 | a proof holds for one key, one role, one pair of nonces and one construction only |
| Handshake.EchoIsNoProof | internal/ws/handshake.go:35-60 | this end's proof never passes for the other end's, whatever the nonces |
| Handshake.IsValidNonce | internal/ws/handshake.go:67-84 | accepts exactly sixty-four lower-case hex digits |
| Paircode.DecodeOfEncode | internal/paircode/paircode.go:60-117 | decoding gives back the address, port and sixteen-digit key of any code, and so of any text with the same cleaned form |
| Paircode.EncodeOfDecode | internal/paircode/paircode.go:60-117 | any accepted text re-encodes to its own cleaned characters, but for the last one's unused low bit |
| Paircode.TypingForgiven | internal/paircode/paircode.go:231-249 | a separator anywhere, or a character in place of one that stands for the same, makes no difference to the cleaned text |
| Paircode.LookAlikesRead | internal/paircode/paircode.go:231-249 | an O is read as a nought, an I or an L as a one, and separators are passed over, wherever they stand |
| Paircode.CleanGrouped | internal/paircode/paircode.go:231-263 | cleaning undoes grouping |
| Paircode.ShiftIn | internal/paircode/paircode.go:154-175 | the 16-bit accumulator may overflow, but the low bits that are ever read come out right |
| Paircode.TakeTop | internal/paircode/paircode.go:154-175 | taking the top pending bits leaves the rest pending |
| Paircode.Encode32 | internal/paircode/paircode.go:154-175 | the characters spell the payload's number, moved left to a whole number of characters |
| Paircode.Decode32 | internal/paircode/paircode.go:193-221 | accepts exactly twenty-one characters of the alphabet and gives the thirteen bytes of half their number |
| Paircode.ValueOf | internal/paircode/paircode.go:184-191 | a character's place in the alphabet, or none exactly when it is not in it |
| Paircode.Clean | internal/paircode/paircode.go:231-249 | the cleaning loop drops separators and maps O, I and L, character by character |
| Paircode.Group | internal/paircode/paircode.go:254-263 | a dash before every fourth character but the first |
| Paircode.KeyNumber | internal/paircode/paircode.go:125-146 | accepts exactly sixteen decimal digits and gives the number they spell |
| Paircode.Encode | internal/paircode/paircode.go:60-95 | fails exactly on a host that is no IPv4 address, a port out of range or a key that is not sixteen digits; otherwise the one text that spells the packed bytes |
| Paircode.Pack | internal/paircode/paircode.go:77-95 | four address bytes, two port bytes and the key's number in seven, most significant first |
| Paircode.ReadKey | internal/paircode/paircode.go:99-117 | seven bytes as one number, nothing lost to the 64-bit shifts |
| Paircode.Decode | internal/paircode/paircode.go:99-117 | accepts exactly a cleaned text that is a code whose key fits sixteen digits, and gives what it means |
| HubSafety.AlarmAndSiren | internal/ws/hub.go:763-843 | an active alarm means an armed machine; the siren is on exactly while one is active; between two triggers there is always a stop |
| HubSafety.PhonesAgree | internal/ws/hub.go:1477-1484 | every registered phone, including one that pairs mid-alarm, was last told what is so: this very alarm while one sounds and none while none does |
| HubSafety.AlertIsHeard | internal/ws/hub.go:763-843 | an alert on an armed machine from a sensor not held quiet ends with an alarm every registered phone believes in |
| HubSafety.OneSessionOneSocket | internal/ws/hub.go:1402-1430 | every session in the auth table is the token of one registered socket and of no other, through re-pairing, removal, expiry and rotation |
| HubSafety.HeartbeatSettles | internal/ws/hub.go:877-894 | after a heartbeat the sessions are exactly those of the registered phones, and all are live |
| HubSafety.PairingDecided | internal/ws/hub.go:1327-1496 | a pairing succeeds exactly when the proof for this socket's challenge holds under the key in force, the address is not locked out and a session is free; then the session key is derived, the slot given back and an earlier session gone; otherwise nobody is registered |
| HubSafety.NeverGreetedNeverPairs | internal/ws/hub.go:1327-1342 | a connection that was never greeted never pairs |
| HubSafety.StrangersChangeNothing | internal/ws/hub.go:976-996 | a message from a socket that has not paired changes neither the alarm, the settings, the phones nor any other socket |
| HubSafety.SlotsAreWaitingSockets | internal/ws/hub.go:157-189 | over every run of connects, pairings and disconnects the slots taken, in all and per address, are those of the open greeted sockets that have not paired, and both caps hold |
| HubSafety.NoPinNoDisarm | internal/ws/hub.go:1114-1124 | an armed machine that asks for a PIN stays armed and keeps asking for the same one, whatever phones and console do, until the right PIN is given or the screen comes on with auto-arming in force |
| HubSafety.SensorsHeldWhileArmed | internal/ws/hub.go:1140-1184 | while armed nothing switches a sensor off but a phone's answer to a sounding alarm, and that only the sensor that raised it; the alarm may be one a phone had raised by a test |
| HubSafety.EnabledShrinksExactly | internal/ws/hub.go:1140-1184 | while armed, an operation leaves fewer sensors on exactly when it is a live paired phone's answer to an active alarm of a sensor that is on |
| HubSafety.TestThenDisable | internal/ws/hub.go:703-742 | the failing input: on a silent armed machine that asks for a PIN, two messages, a sensor test and disabling the sensor, leave it off with no PIN given |
| HubSafety.PhonesSwitchOffExactlyTestable | internal/ws/hub.go:1140-1184 | phones alone, without the PIN, can have a sensor off on an armed, silent, PIN-guarded machine exactly when it is one that can be tested by name |
| HubSafety.InputKeptQuiet | internal/ws/hub.go:1131-1138 | for five seconds after a phone dismisses an alarm of the input sensor, no alert of that sensor raises another |
| HubSafety.InputOnlyByTest | internal/ws/hub.go:1131-1138 | and in those five seconds any operation takes a silent machine to an alarm of the input sensor exactly when the machine is armed and the operation is a test of that sensor, by the console or by a live paired phone |
| HubSafety.AlarmRaisedExactly | internal/ws/hub.go:703-843 | in general an operation takes a silent machine to an alarm of a sensor exactly when the machine is armed and the sensor is tested by name, or alerts, is not held quiet and is not taken for the screen locking or unlocking |
| HubChanges.ArmedExactly | internal/ws/hub.go:439-484 | a disarmed machine is armed exactly by the console, a restart into that state, a live paired phone's message, or the screen going off with auto-arming and a phone there; an armed one is disarmed exactly by a phone or the console with the PIN if one is in force, or the screen coming on |
| HubChanges.AlarmEndsExactly | internal/ws/hub.go:1218-1250 | a sounding alarm goes on as it is, whatever else alerts, until exactly a live phone answers it, the console stops it or the machine is disarmed |
| HubChanges.WatchedExactly | internal/ws/hub.go:1523-1560 | on a disarmed machine a sensor is watched after an operation exactly as a live phone's message asks, or if the settings were reset or its pause ran out or it was watched before |
| HubChanges.SettingsExactly | internal/ws/hub.go:1667-1758 | the PIN and auto-arming are what a live phone saves, with the PIN in force where the PIN changes, or gone with a reset, and nothing else changes them |
| HubChanges.TestIsHeard | internal/ws/hub.go:703-742 | a test of a sensor is an alert to every registered phone, armed or not |
| HubChanges.GreetedExactly | internal/ws/hub.go:157-189 | a socket is let in and challenged exactly when fewer than thirty-two are waiting to pair, and fewer than four at its address; otherwise it is told and closed |
| HubChanges.RegisteredExactly | internal/ws/hub.go:1955-2010 | a phone is registered after an operation exactly when it was and neither went nor was found with its session over, or has just paired |
| HubChanges.HeartbeatDrops | internal/ws/hub.go:877-894 | the heartbeat tells and closes exactly the registered phones whose session has ended, and leaves every other socket as it was |
| HubChanges.MessagesAreActivity | internal/ws/hub.go:998-1016 | anything a phone sends on a live session starts its idle time again and no other session's |
| HubChanges.GuardedReachable | internal/ws/hub.go:439-460 | under every policy there is a run to an armed, silent machine that asks for a PIN and has a live phone, so that what is proved of such machines is proved of something |
| HubLockout.HubLockoutBound | internal/ws/hub.go:1261-1281 | over every run of the hub with a forward clock, any window one lockout period long holds at most MaxAttempts wrong proofs and PINs for an address, from all its sockets together, the console being an address of its own; counting afresh when its record is pushed out early |
| HubLockout.HubLockoutHoldsExactly | internal/ws/hub.go:1344-1401 | for any set of addresses that connect: every such run in which nobody else is judged holds each of them to that bound, evictions or none, exactly when their hosts are no more than the table has room for; the failing run is one of sockets that connect, offer a proof that does not hold and go |
| HubLockout.Accompanied | internal/ws/hub.go:976-1052 | beside every run of the hub there is a run of the auth manager with the same secrets judged at the same times and the same state at the end: session checks, disconnects, heartbeats and rotations included |
| HubLockout.ThroughTheHub | internal/ws/hub.go:1327-1401 | and a run of wrong guesses at the auth manager can be had through sockets of the hub |
| HubLockout.MessageAuth | internal/ws/hub.go:976-1052 | what a message leaves of the auth manager: the dead session gone, or the answer's state less the session a socket that pairs anew had before |
| HubHistory.AlwaysInv | internal/ws/hub.go:50-135 | every run of operations keeps alarm, siren, phones' news, owners of sessions and slots consistent |
| HubHistory.StepKeeps | internal/ws/hub.go:50-135 | each operation keeps them |
| HubHistory.GrantMeans | internal/ws/hub.go:1306-1342 | a granted pairing had a proof that held and both nonces, so deriving the session cannot fail |
| HubHistory.NothingToStrip | internal/auth/auth.go:537-545 | a key of digits has no dashes to strip |
| Hub.Hub.constructor | internal/ws/hub.go:137-156 | a hub starts disarmed and silent, with no sockets and no slots taken |
| Hub.Hub.PushAlert | internal/ws/hub.go:671-700 | an alert reaches exactly the registered paired phones, each once |
| Hub.Hub.ClearAlarm | internal/ws/hub.go:1218-1230 | the alarm is over, the siren told and every phone told; the sensor that raised it is returned |
| Hub.Hub.Disarm | internal/ws/hub.go:463-484 | disarmed, and any alarm cleared everywhere |
| Hub.Hub.TryAutoArm | internal/ws/hub.go:781-800 | arms on the screen going off and disarms on it coming on, only with a phone registered |
| Hub.Hub.ClaimAlarm | internal/ws/hub.go:809-827 | won exactly when the sensor is not held quiet and no alarm is active; an expired suppression is forgotten |
| Hub.Hub.RaiseAlarm | internal/ws/hub.go:831-843 | phones told of the alert, siren triggered, phones told of the alarm, in that order |
| Hub.Hub.DispatchAlert | internal/ws/hub.go:763-774 | one step of the machine for every alert, and keeps the invariants |
| Hub.Hub.TriggerSensorTest | internal/ws/hub.go:703-742 | a known sensor's test is an alert, and an alarm when armed and silent; suppression is not asked |
| Hub.Hub.RemoveClient | internal/ws/hub.go:1955-1969 | unregisters the socket and removes its session |
| Hub.Hub.ReleasePending | internal/ws/hub.go:183-189 | gives back the slot of a socket that holds one, and is otherwise a no-op |
| Hub.Hub.AcquirePending | internal/ws/hub.go:169-175 | takes a slot for the socket exactly when one is free for its address |
| Hub.Hub.BeginConnection | internal/ws/hub.go:549-582 | a socket is let in and greeted, or told and closed; keeps the invariants |
| Hub.Hub.EndConnection | internal/ws/hub.go:572-576 | slot back, session gone, socket unregistered; keeps the invariants |
| Hub.Hub.RegisterExternalClient | internal/ws/hub.go:497-504 | a connection over another transport holds no slot and no challenge |
| Hub.Hub.DropExpiredSessions | internal/ws/hub.go:877-894 | tells, closes and removes exactly the paired phones whose session is no longer live; keeps the invariants |
| Hub.Hub.HandleAuth | internal/ws/hub.go:1344-1401 | no proof or no sealing is refused without an attempt; otherwise the auth manager decides |
| Hub.Hub.AcceptPairing | internal/ws/hub.go:1402-1484 | the earlier session is retired, the slot given back, the socket registered and sealed, and the phone told |
| Hub.Hub.SealConnection | internal/ws/hub.go:1428-1484 | the session is derived without fail, and acceptance and any sounding alarm are told in that order |
| Hub.Hub.DisarmWithPin | internal/ws/hub.go:1261-1281 | disarms exactly when no PIN is asked for or the PIN is accepted |
| Hub.Hub.DismissAlarm | internal/ws/hub.go:1131-1138 | clears the alarm, and holds the input sensor quiet if it was the one |
| Hub.Hub.SwitchOffAlarmSensor | internal/ws/hub.go:1146-1184 | clears the alarm and switches off the sensor that raised it, if there was an alarm |
| Hub.Hub.HandleConfigure | internal/ws/hub.go:1523-1536 | sensors change only while disarmed |
| Hub.Hub.ApplyConfigUpdate | internal/ws/hub.go:1667-1705 | changing the PIN needs the PIN in force; sensors change only while disarmed |
| Hub.Hub.ResetWithPin | internal/ws/hub.go:1840-1880 | a reset needs the PIN in force, and then drops it and watches with every sensor |
| Hub.Hub.SensorsWouldChange | internal/ws/hub.go:1913-1920 | whether a requested sensor state differs from the one in force |
| Hub.Hub.SessionStillLive | internal/ws/hub.go:1004-1018 | a message on a dead session is refused, and the socket told, closed and let go |
| Hub.Hub.HandleMessage | internal/ws/hub.go:976-996 | every message is one step of the machine and keeps the invariants |
| Hub.Hub.RestoreArmed | internal/ws/hub.go:405-422 | a restart into the armed state is one step of the machine, arms it (HubChanges.ArmedExactly) and keeps the invariants |
| InputLine.HistoryIsDigest | cmd/leavesafe/input.go:348-369 | over every run of keys the history is the digest of the unmasked lines taken: never a blank entry, an adjacent duplicate or a masked line |
| InputLine.UpsThenDowns | cmd/leavesafe/input.go:330-345 | from the current line any ups followed by at least as many downs give back the typed text |
| InputLine.CursorAlwaysInView | cmd/leavesafe/input.go:377-394 | counting characters, in a window of at least four the character under the cursor is drawn where the cursor is put and the last cell is left free |
| InputLine.RowFitsExactly | cmd/leavesafe/input.go:377-394 | counting columns, an unmasked line without escapes stays short of the last column for every cursor and every width of at least four exactly when none of its characters is wide |
| InputLine.CursorInPlaceExactly | cmd/leavesafe/input.go:377-394 | the cursor is put in the right column for every cursor and width exactly when every character of the line takes one column |
| InputLine.MaskedRowFits | cmd/leavesafe/input.go:377-394 | a masked line always meets both |
| InputLine.WideCharactersSpill | cmd/leavesafe/input.go:377-394 | the failing input: eight wide characters in ten columns draw fourteen with the cursor in the ninth, and one in four columns draws four |
| InputLine.NoEscapeOnLine | cmd/leavesafe/input.go:79-125 | over every run of keys read from the terminal the line holds no escape |
| InputLine.InputLine.Draw | cmd/leavesafe/input.go:377-394 | the steps of drawing, room, start, slice and mask, give the window that the other statements speak of, for any width, and nothing changes |
| InputLine.MaskHidesText | cmd/leavesafe/input.go:377-394 | what is drawn of a masked line depends on its length and cursor only |
| InputLine.KeysUndo | cmd/leavesafe/input.go:238-305 | insert then backspace, and a step aside and back, leave the line as it was |
| InputLine.KeyEdits | cmd/leavesafe/input.go:214-262 | which key does what, by position in the text: each key's action, the text it leaves and where the cursor is then |
| InputLine.KeyWalks | cmd/leavesafe/input.go:325-347 | a step back or on in the history shows the line there with the cursor at its end, the draft past the newest, and no step leads past either end |
| InputLine.KillWordTakesOneWord | cmd/leavesafe/input.go:311-321 | deleting a word takes one whole word and the spaces behind it |
| InputLine.InputLine.ApplyKey | cmd/leavesafe/input.go:238-272 | every key does to the buffer and cursor what it does to the zipper |
| InputLine.InputLine.EndOfFile | cmd/leavesafe/input.go:277-283 | ends the input on an empty line and deletes forward on any other |
| InputLine.InputLine.Insert | cmd/leavesafe/input.go:285-290 | the in-place shift inserts at the cursor |
| InputLine.InputLine.DeleteBack | cmd/leavesafe/input.go:292-298 | drops the character before the cursor, if there is one |
| InputLine.InputLine.DeleteForward | cmd/leavesafe/input.go:300-305 | drops the character under the cursor, if there is one |
| InputLine.InputLine.DeleteWord | cmd/leavesafe/input.go:311-321 | the two backward scans drop the word before the cursor |
| InputLine.InputLine.WalkBy | cmd/leavesafe/input.go:330-345 | steps through the history, keeping the typed line as a draft |
| InputLine.InputLine.TakeLine | cmd/leavesafe/input.go:348-359 | hands the line back and starts a new one, remembering it when it is worth it |
| Layout.TruncationIsTight | cmd/leavesafe/layout.go:293-317 | the cut line takes at most n columns, is the line itself exactly when that fits, and otherwise keeps the longest run of tokens that fits with a reset when a color was among them |
| Layout.TokensOfTruncated | cmd/leavesafe/layout.go:293-317 | the tokens of a cut line are the kept ones and the reset |
| Layout.CutTokens | cmd/leavesafe/layout.go:293-346 | token boundaries survive cutting and appending, unterminated escapes included |
| Layout.FlatTokens | cmd/leavesafe/layout.go:325-337 | the tokens of a text put together are the text |
| Layout.FitIsLongest | cmd/leavesafe/layout.go:293-317 | what fits is within n columns and any longer run of tokens is not |
| Layout.TruncateVisible | cmd/leavesafe/layout.go:293-317 | the counting loop computes that cut for every text and width, negative widths as none |
| Layout.EscapeLen | cmd/leavesafe/layout.go:325-337 | the length of the escape at a position, to the end of the text if it is never ended, and 0 where there is none |
| Layout.VisLen | cmd/leavesafe/main.go:248-260 | the width on screen is the sum over the tokens, escapes taking none |
| Layout.ColumnWidth | cmd/leavesafe/column_width.go:8-20 | no character takes more than two columns |
| Layout.WidthsByKind | cmd/leavesafe/column_width.go:8-20 | ideographs, kana, Hangul, full-width forms and emoji take two columns, marks and controls none, the rest of ASCII one |
| Update.TotalPreorder | internal/update/update.go:253-304 | version order is a total preorder on all strings: asymmetric, transitive across lengths, and equivalence is a congruence |
| Update.Trichotomy | internal/update/update.go:253-279 | two lists of numbers that agree up to some place are ordered one way or the other from there on, or are the same with noughts for what is missing |
| Update.CompareVersions | internal/update/update.go:253-304 | the sign of the comparison is that order, and the difference never leaves the integer range |
| Update.ZeroPadded | internal/update/update.go:253-279 | a missing number counts as zero |
| Update.VersionRead | internal/update/update.go:282-304 | a version written out, with or without a leading v, is read back number by number, and its suffix is seen |
| Update.FirstDifferenceDecides | internal/update/update.go:253-279 | of two versions written out the first number in which they differ decides which is older, whatever follows it |
| Update.LongerDecides | internal/update/update.go:253-279 | a version that goes on longer is newer exactly when it goes on with something other than zeroes |
| Update.EligibleExactly | internal/update/update.go:174-182 | a release with a version for its tag is eligible exactly when it is no draft and, off the beta channel, no pre-release |
| Update.EligibleShape | internal/update/update.go:174-182 | and only a tag of that shape is eligible: a v at most, one to four numbers, and a suffix after a dash at most |
| Update.NothingElseReported | internal/update/update.go:99-131 | what is reported is the tag of some release in the list that is no draft and, off the beta channel, no pre-release, with its own link only if that is one to github.com |
| Update.ReleaseNamed | internal/update/update.go:207-216 | a version of two numbers or more counts as a release |
| Update.PrereleaseFirst | internal/update/update.go:282-284 | a suffix makes a version older than the same one without it |
| Update.SplitJoins | internal/update/update.go:287-304 | splitting at dots loses nothing |
| Update.VersionParts | internal/update/update.go:287-304 | the leading run of fields that parse as 64-bit integers, up to the first suffix |
| Update.Check | internal/update/update.go:99-131 | reports a release exactly when a released version is running and some eligible release is strictly newer, and then the first maximal one |
| Update.PickBest | internal/update/update.go:111-122 | the selection loop finds a maximal eligible release, the first listed among equals |
| Update.BestDecides | internal/update/update.go:123-131 | the best release is newer than the running one exactly when any eligible one is |
| Update.ListOrderIrrelevant | internal/update/update.go:108-131 | two lists of the same releases in different orders both report or neither does, and what they pick is equally new |
| Update.IsNewer | internal/update/update.go:246-251 | true exactly when both are releases and the first is newer |

## Left out

- Filesystem failures, permissions and half-done rotations: every call succeeds. Nothing is claimed of a record whose rotation failed (internal/rotate/rotate.go:118-123).
- EventLog.TornTailMerges: says what a torn write does to what is read next, not how a write comes to be torn.
- EventLog.ReadBack: asks for a file count of zero or more and a reader of the same policy; a reader that looks further back is EventLog.StaleGenerationsDecide.
- Retention.RecentBytesKept: speaks of runs of writes; a forced rotation gives the oldest generation up whatever it holds.
- AuthAnswers.UsedToTheLimit: asks for a clock that does not go back; AuthAnswers.AliveExactly asks nothing of it.
- EventLog.ReadLast: opening and reading files cannot fail here but for a missing live file.
- AuthHistory.LockoutBound: starts the count over when a record is evicted before it has gone stale; Population.LockoutHoldsExactly says exactly when it holds without a fresh start.
- HubLockout.HubLockoutHoldsExactly: a refused rate limit is a flag on the message, so that the failing run's sockets, one message each, are all let through is taken from RateLimit.LockoutAnswersFirst.
- AuthHistory.ReachableLockouts: asks for a clock that does not go back, as the promise does.
- Key stretching, hashing of PINs, random digits, tokens and salts: values handed in. The rewriting of an old PIN hash after a right PIN is not modelled.
- RateLimit.TokenBucket.Allow: tokens are reals, so floating-point rounding is not modelled; nor are elapsed times beyond the 292 years a Go duration holds.
- InputLine.RowFitsExactly: an escape on the line is left to InputLine.NoEscapeOnLine; that keys read from the terminal hold no control character is taken from the reader.
- Session.EndToEnd: speaks of fewer than 2^64 messages; beyond them counters come round and the receiver refuses the frames.
- Session.NetworkSafety: speaks of one session object; a new session on the same socket is fresh because the app sends a new nonce.
- SealWindow.NoClearAfterAcceptance: a session's counter is a natural number here, so it speaks of fewer than 2^64 frames per session; Client.Client is one with it below that.
- Handshake.ProofSpeaksForOne: asks that role and nonces hold no vertical bar, which hexadecimal nonces never do.
- Paircode.Decode32: the source's last length check is not there, because twenty-one characters always make thirteen bytes.
- Races between separate locked sections of the hub: each operation is one step. Only the write lock of a connection is interleaved, in SealWindow.
- Hub.Hub.HandleMessage: pings, location, push subscriptions, configuration reads and statuses are not told apart; a refused rate limit is a flag on the message.
- Hub.Hub.ApplyConfigUpdate: the settings modelled are the PIN, auto-arming and the sensors; the hub's copy of the PIN settings and the stored one are the same, and hashing a new PIN does not fail.
- Hub.Hub.SwitchOffAlarmSensor: how long a paused sensor stays off is not modelled; it may come back at any time.
- Hub.Hub.HandleAuth: sockets are records in a table of the hub rather than objects of their own, so aliasing between a socket's goroutine and the hub is not modelled.
- Sensors, siren, volume, the state file, the event log lines the hub writes, callbacks on client changes, push and location.
- Layout.TruncateVisible: text is code points, so invalid UTF-8 is not modelled.
- InputLine.InputLine.ApplyKey: reading keys from the terminal and drawing the line are not modelled.
- Update.Check: fetching the list of releases and the schedule of checks are not modelled.
- The QR code, the HTTP server, the phone's page, the console's screens and the configuration file's validation: I/O, or true but easy.
