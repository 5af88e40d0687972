# Catena: models and proofs

Dafny models of the parts of catena-ce that decide something a host cannot afford to get
wrong, and proofs of what they decide. `dafny verify dfyconfig.toml` checks all of it.

- **The inbound firewall walk** (`Firewall`, `FirewallKernel`, `FirewallLimits`,
  `FirewallReasons`). The walk
  reads an iptables ruleset and reports why an SSH packet on the tailnet would not reach
  sshd. `Firewall` is the walk, token by token. `FirewallKernel` is the other side: rules as
  the kernel has them, printed the way `iptables-save` prints them, and a kernel that
  evaluates them, each undecided condition answered afresh at each evaluation by a tape.
  For every ruleset of modelled targets the walk reports nothing exactly when the packet
  is delivered by every tape on which no undecided rule leaves its chain; in a ruleset
  without an undecided `RETURN` or `-g` that is every tape. The docstring of the walk says
  an undecided condition "never counts as accepting the packet"; an undecided `RETURN` or
  `-g` does, and `FirewallLimits` gives for each of a family of such rulesets the tape that
  drops the packet, along with the other rulesets the hypotheses shut out.
  `FirewallReasons` shows that whatever the walk reports is there.
- **The dispatch-path switch** (`Dispatch`, `DispatchSafety`, `DispatchProof`,
  `DispatchHost`, `KeyLines`, `KeyReading`).
  The switch moves the panel's SSH line to a new generation of scripts: beside, proof,
  switch, retire, each with its undo. It is a machine with one write or command a step,
  which can be stopped between any two, whatever commands and proofs answer. The path the
  key file names stays served exactly when the run starts well; a refusal rolls back; a
  rerun ends in one disk; a further run writes nothing. `DispatchProof` is about what the
  commands and proofs answered: nothing moves past a failure, and what each failed proof
  leads to. `DispatchHost` runs the machine as
  methods over a disk. `KeyLines` renders and reads the authorized_keys text itself and
  shows that what the machine assumes of its texts holds of them; `KeyReading` says of any
  text which line, command and generation are read off it.
- **Image layers** (`Layers`, `LayerNames`, `LayerWrites`, `LayerOverlay`, `LayerUnpack`,
  `LayerProjection`, `Symlinks`). What a member's name means, and when it can be written.
  Applying a layer to a tree in two passes, against the overlay the OCI Image Format
  Specification describes (Image Layer Filesystem Changeset, section "Whiteouts"); the
  prefix filter against restriction; the symlink check against a kernel's path walk.
- **The emailed-code sign-in step** (`SignIn`, `SignInRuns`). Its notes after any session,
  what two sessions over different account databases can show, when a code is sent and
  where it goes, how often codes are sent and met, exactly which request signs in, and
  that a code does so once.
- **The restic password** (`Restic`, `ResticAgreement`, `ResticReplies`). Store, pass file
  and repositories after every write of every request, the tools failing or not, and
  exactly when each request succeeds.
- **The on-box store** (`OnboxStore`, `StoreMeaning`, `StoreConverge`, `StoreWriter`,
  `StoreRuns`, `StoreSafety`).
  What a converge and a settings write make of it, when a second converge changes nothing,
  and every interleaving of its writers under the lock, killed anywhere.
- **The `.env` file** (`DotEnv`, `DotEnvReading`, `DotEnvTrip`, `DotEnvAgain`,
  `DotEnvTemplate`, `DotEnvComments`). Its template, its printer and its two readers;
  `TextMeaning` for the stripping and the line splitting they rest on.
- **The DNS response parser** (`Dns`), against responses printed by sections 4.1.1 to 4.1.4
  of RFC 1035.
- **Image references and versions** (`Images`, `References`, `ReferenceForms`, `Versions`,
  `VersionTags`).

Oracles stand for what the code calls: command and proof outcomes are booleans fed to the
switch; restic and rclone answer truthfully or fail; minters and draws are functions;
clock readings are part of a request; networks are read by a function.

Code that disagrees with what it says of itself, each with a lemma: the firewall walk on
undecided `RETURN` and `-g` (`UndecidedExitIsMissed`), on a rule whose comment is "-g" or
"-j" (`CommentIsReadAsFlag`), or that holds either token where it is taken for the rule's
flag (`TargetReadExactly`, `MistakenDropIsMissed`), and on two own addresses of which a
rule admits one (`AddressesStandTogether`); a switch killed between moving the line and the main rules, then
run for another generation (`KilledMidSwitchIsNotSafeForAnother`); a re-key killed after
its first write (`RequestAgrees`); the re-key script, which writes the store without the
lock "every writer" holds (`UnlockedSaveLosesAnother`); a second converge that changes the
store (`LateMethodHappens`, `LateTokenHappens`); `.env` values with quotes or backslashes,
which are escaped on the way out and not on the way in, so that each re-run escapes them
again (`RoundTrip`, `RerunIsQuiet`); a reference with a space before an empty tag
(`SpaceBeforeEmptyTag`); a DNS response cut inside its questions and with no answer to
read (`CutsAreNoticed`, and `CutQuestionReadsAsEmpty` for which cuts).

## Model

| member | source | states |
|---|---|---|
| Firewall.RuleMatches | ansible/helpers/tailnet_reachability.py:219-271 | the loop over a rule's tokens is the scan the proofs speak of: conditions folded left to right in three values, the target ending it |
| Firewall.Walk.Chain | ansible/helpers/tailnet_reachability.py:282-308 | the recursive closure that appends to the shared reasons gives the verdict and exactly the reasons of the walk, whatever chains are entered on the way |
| Firewall.Walk.Take | ansible/helpers/tailnet_reachability.py:289-307 | one rule's verdict and reasons, with what the chain it enters answers |
| Firewall.Walk.Inbound | ansible/helpers/tailnet_reachability.py:310-321 | the hooks in kernel order up to the deciding verdict, each reason once, in the order first found |
| FirewallKernel.PortListRead | ansible/helpers/tailnet_reachability.py:211-216 | a printed list of port ranges holds 22 exactly when one of the ranges does |
| FirewallKernel.IfaceRead | ansible/helpers/tailnet_reachability.py:249-251 | the walk takes an interface name for tailscale0 exactly when the kernel does: the name itself, or a beginning of it and a "+" |
| FirewallKernel.ScanPrinted | ansible/helpers/tailnet_reachability.py:219-271 | scanning a rule's printed conditions folds their truths in order, whatever the conditions are and whatever follows them |
| FirewallKernel.MatchIsExact | ansible/helpers/tailnet_reachability.py:219-271 | True exactly when the rule fires under every answer to its undecided conditions, False exactly when under none |
| FirewallKernel.TargetReadExactly | ansible/helpers/tailnet_reachability.py:284-291 | the flag and target read off a printed rule are its own exactly when, for a `-g`, no earlier token is "-g", and for a `-j`, no earlier token is "-j" and no token "-g" |
| FirewallKernel.RuleRead | ansible/helpers/tailnet_reachability.py:284-291 | the conditions, flag, target and kind read off such a rule are the rule's own |
| FirewallKernel.ChainSound | ansible/helpers/tailnet_reachability.py:282-308 | a chain that reports nothing ends every kernel run of it as it says it does, cycles and depth cap included |
| FirewallKernel.Witness | ansible/helpers/tailnet_reachability.py:282-308 | whatever a chain answers some run realizes, and a reported reason is a run that drops the packet |
| FirewallKernel.WalkDecides | ansible/helpers/tailnet_reachability.py:274-321 | for every modelled ruleset: nothing reported exactly when every run delivers in which no undecided rule leaves its chain |
| FirewallKernel.WalkIsExact | ansible/helpers/tailnet_reachability.py:274-321 | with no undecided RETURN or -g: nothing reported exactly when the kernel delivers under every way of resolving each evaluation of an undecided condition |
| FirewallKernel.WalkIsSound | ansible/helpers/tailnet_reachability.py:274-321 | soundness on every chain graph, cyclic ones included: a cleared ruleset delivers |
| FirewallKernel.NoFalseAlarm | ansible/helpers/tailnet_reachability.py:274-321 | a reported reason is a packet some kernel run drops, undecided RETURN and -g allowed |
| FirewallReasons.ReasonsAreReal | ansible/helpers/tailnet_reachability.py:274-321 | every reason names a rule that drops and can fire, a policy of DROP at a hook the packet passes, or a rule that can fire and jumps, in that table |
| FirewallLimits.UndecidedExitIsMissed | ansible/helpers/tailnet_reachability.py:277-306 | every ruleset whose INPUT starts with an undecided RETURN, or -g to an empty chain, before an ACCEPT and under a DROP policy is cleared, and a run drops the packet |
| FirewallLimits.MistakenDropIsMissed | ansible/helpers/tailnet_reachability.py:284-308 | any dropping rule whose target is misread, as an option ahead of its flag or as a name the walk lets carry on, is cleared, and a run drops the packet |
| FirewallLimits.CommentIsReadAsFlag | ansible/helpers/tailnet_reachability.py:284-289 | a rule commented "-g" or "-j" that always drops is such a rule |
| FirewallLimits.ForeignTargetIsPassed | ansible/helpers/tailnet_reachability.py:292-308 | a target the walk does not model is passed over, whatever it does to the packet |
| FirewallLimits.AddressesStandTogether | ansible/helpers/tailnet_reachability.py:254-256 | a ruleset admitting a list that holds some own address is cleared, and delivers to every own address exactly when the list tells no two of them apart |
| FirewallLimits.OpenRangeIsReadAsOnePort | ansible/helpers/tailnet_reachability.py:211-216 | ports, ranges and a range open below are read as the kernel has them; "N:" is read as the port N alone |
| Dispatch.InvIter | ansible/helpers/dispatch_path.py:577-702 | what holds at each point of every run that started well, whatever was answered so far |
| DispatchSafety.AlwaysServed | ansible/helpers/dispatch_path.py:577-702 | the path the key file names keeps its directory, a sudo rule and a loaded AcceptEnv rule after every write of every run, exactly when the run starts well |
| DispatchSafety.RefusalRollsBack | ansible/helpers/dispatch_path.py:626-665 | a refused move leaves keys, main rules, link and every other directory as they were, and nothing of the new generation |
| DispatchSafety.RerunIsCanonical | ansible/helpers/dispatch_path.py:577-702 | from the disk a run killed anywhere leaves, or any other, some run whose commands and proofs succeed ends, and each that ends has ended well in the generation's one canonical disk |
| DispatchSafety.CanonicalIsQuiet | ansible/helpers/dispatch_path.py:577-702 | there a further run writes nothing at any step, whatever it is answered |
| DispatchSafety.KilledMidSwitchIsNotSafeForAnother | ansible/helpers/dispatch_path.py:626-665 | a run killed once the line moved, its rules still only in -next, leaves a host on which some run for another generation strands the panel |
| DispatchSafety.MainKept | ansible/helpers/dispatch_path.py:626-665 | until it retires no run touches the main sudo rule |
| DispatchProof.DoneMeansNoFailure | ansible/helpers/dispatch_path.py:577-702 | a run that ends Done was answered well by every command, check and proof it ran |
| DispatchProof.NothingPassesUnproven | ansible/helpers/dispatch_path.py:638-702 | in a run that moves the panel's line, the line moves only behind a proof through the new entry that passed, the main rules only behind the panel's own, the link and the other generations only behind the last |
| DispatchProof.FailedProofMovesNothing | ansible/helpers/dispatch_path.py:646-651 | where the proof through the new entry fails, no later disk of the run has the panel on the new generation, whatever is answered, and the run ends undone |
| DispatchProof.FailedPanelProofPutsBack | ansible/helpers/dispatch_path.py:653-665 | where the panel's own proof fails, its line is put back and the move undone; where it cannot be put back the run stops there, the line on the new generation and all its rules in place |
| DispatchProof.FailedFinalProofBringsNextBack | ansible/helpers/dispatch_path.py:688-695 | where the last proof fails, the run is refused with keys, main rules, link and directories as they stood, and the -next rules back and loaded unless something else fails |
| DispatchProof.OthersStayUntilProven | ansible/helpers/dispatch_path.py:686-699 | until a run is past its last proof the link and every other generation's directory are as they were |
| DispatchProof.ChangedRulesAreProven | ansible/helpers/dispatch_path.py:668-695 | any run that ends Done having changed the keys, a rule or its directory had its last proof, and that passed |
| DispatchProof.RulesAreRead | ansible/helpers/dispatch_path.py:638-685 | a generation's sudo rule and drop-in stand only where they stood before or visudo and sshd -t took them |
| DispatchProof.DoneIsLoaded | ansible/helpers/dispatch_path.py:686-687 | a run that ends Done leaves sshd with the drop-ins on disk, if it had them |
| DispatchProof.UndoneIsLoaded | ansible/helpers/dispatch_path.py:632-636 | so does an undone move whose reload did not fail |
| DispatchHost.Host.AddBeside | ansible/helpers/dispatch_path.py:638-648 | the new directory and -next rules, sshd reloaded; the disk and what is left to do are the machine's |
| DispatchHost.Host.ProveBeside | ansible/helpers/dispatch_path.py:520-543 | the proof through the new entry and the key file put back, on every answer |
| DispatchHost.Host.UndoMove | ansible/helpers/dispatch_path.py:632-636 | the undo of a refused move, step by step as the machine has it |
| DispatchHost.Host.Move | ansible/helpers/dispatch_path.py:626-665 | the panel's line on the new generation and proven, or the refusal undone |
| DispatchHost.Host.Retires | ansible/helpers/dispatch_path.py:668-702 | the main rules written, -next dropped, the path proven once more, or the -next rules back |
| DispatchHost.Host.Switch | ansible/helpers/dispatch_path.py:577-599 | a whole run ends where the machine does, and at every answer on the way the panel's path was served |
| KeyLines.PanelLineRuns | ansible/helpers/dispatch_path.py:171-236 | what is read off the rendered key file is the generation it was rendered for |
| KeyReading.LineIsTheFirst | ansible/helpers/dispatch_path.py:214-219 | the panel's line of any key file is the first that is no comment and has the key for a word |
| KeyReading.CommandIsTheFirst | ansible/helpers/dispatch_path.py:204-229 | the command read off any line is the first `command="..."` at its start or behind a comma, with a backslash taking the next character along |
| KeyReading.RunningIs | ansible/helpers/dispatch_path.py:222-229 | a line runs a generation exactly when its command is the entry of twelve hexadecimal digits; any other line is legacy, and no line none |
| KeyReading.ProofLineIs | ansible/helpers/dispatch_path.py:171-174 | the proof key's line is good from loopback, until it expires, for the new entry |
| KeyLines.ProofLeavesThePanel | ansible/helpers/dispatch_path.py:520-541 | a line of another key put at the end of any key file, however that ends, changes nothing of what the panel's key runs |
| KeyLines.TextsRender | ansible/helpers/dispatch_path.py:171-236 | the hypotheses of the switch's proofs hold of the texts as they are rendered and read |
| KeyLines.RenderedSwitchIsServed | ansible/helpers/dispatch_path.py:577-702 | the safety of the switch over the rendered texts, with nothing assumed of how they are read |
| Layers.WriteWellFormed | ansible/helpers/fetch_release.py:457-543 | a write keeps every entry's parent a real directory, whatever the member is |
| Layers.LayerWellFormed | ansible/helpers/fetch_release.py:546-568 | so does every tree on the way through a layer |
| LayerNames.NameIsItsPath | ansible/helpers/fetch_release.py:428-434 | components with slashes between name exactly that path |
| LayerNames.NameIsNormalized | ansible/helpers/fetch_release.py:428-434 | an empty component or "." put anywhere behind the first changes nothing |
| LayerNames.NameIsRefused | ansible/helpers/fetch_release.py:428-434 | a name is refused exactly when it starts with a slash or has ".." for a component |
| LayerNames.WhiteoutTakesItsEntry | ansible/helpers/fetch_release.py:551-560 | "dir/.wh.name" takes "dir/name" and what is beneath it, nothing else |
| LayerNames.OpaqueTakesTheContents | ansible/helpers/fetch_release.py:551-557 | "dir/.wh..wh..opq" takes all that is in "dir", and not "dir" |
| LayerNames.OthersTakeNothing | ansible/helpers/fetch_release.py:555-560 | a name without the prefix, the prefix alone and the prefix twice take nothing |
| LayerWrites.WriteIsRefused | ansible/helpers/fetch_release.py:457-543 | a directory, file or symlink is refused exactly where a symlink stands in the way |
| LayerWrites.HardLinkIs | ansible/helpers/fetch_release.py:530-543 | a hard link is written exactly where its source is in the image, requested, there and no directory, and then holds what the source does |
| LayerOverlay.WhiteoutsAre | ansible/helpers/fetch_release.py:551-560 | the first pass removes exactly what the layer whites out, in whatever order |
| LayerOverlay.LayerIsOverlay | ansible/helpers/fetch_release.py:546-568 | a plain layer applies and gives the lower tree minus its whiteouts overlaid with its members |
| LayerOverlay.OrderIsIrrelevant | ansible/helpers/fetch_release.py:546-568 | any two orders of the same members give the same tree |
| LayerUnpack.Unpacker.Walk | ansible/helpers/fetch_release.py:457-483 | the walk through real directories, made where wanted; a symlink in the way refused or not found |
| LayerUnpack.Unpacker.Remove | ansible/helpers/fetch_release.py:486-501 | an entry and what is beneath it, and nothing else, gone from the tree in place |
| LayerUnpack.Unpacker.Empty | ansible/helpers/fetch_release.py:504-508 | what is beneath a real directory gone, the directory kept |
| LayerUnpack.Unpacker.Write | ansible/helpers/fetch_release.py:511-543 | one member written over whatever was there, or the run failed |
| LayerUnpack.Unpacker.ApplyLayer | ansible/helpers/fetch_release.py:546-568 | both passes in place give the tree of the overlay theorems, or fail where it does |
| LayerProjection.PrefixesCover | ansible/helpers/fetch_release.py:437-446 | the prefixes cover exactly the requested paths, none inside another |
| LayerNames.PrefixesAreRequested | ansible/helpers/fetch_release.py:437-446 | the prefixes are refused exactly when a requested text names nothing, and else cover exactly what lies at or beneath a text |
| LayerNames.PrefixesCoverTheirTexts | ansible/helpers/fetch_release.py:437-446 | requested as lists of components, they cover exactly what lies at or beneath one of the lists |
| LayerProjection.ProjectionIsRestriction | ansible/helpers/fetch_release.py:546-568 | applying any layers through the prefixes gives, under them, the tree of applying every member, and above them directories alone |
| Symlinks.ResolvesInside | ansible/helpers/fetch_release.py:571-600 | the loop over resolved components and components to do decides the walk the proofs speak of, and ends |
| Symlinks.VettedLinkStaysInside | ansible/helpers/fetch_release.py:571-600 | a vetted link's resolution by the kernel through at most the limit of links never leaves the tree; a refused one leaves it or leads nowhere |
| Symlinks.AbsoluteIsRefused | ansible/helpers/fetch_release.py:580-582 | every link whose target starts with a slash is refused, whatever the tree holds |
| Symlinks.LeadsInside | ansible/helpers/fetch_release.py:571-600 | where such a resolution ends is a resolved place of the tree |
| SignIn.Session.Action | ansible/reconcile/roles/keycloak/provider/src/main/java/run/catena/keycloak/CatenaClientEmailCodeAuthenticator.java:122-131 | one post changes the session's notes and answers as the transition the proofs speak of |
| SignIn.Session.PostCode | ansible/reconcile/roles/keycloak/provider/src/main/java/run/catena/keycloak/CatenaClientEmailCodeAuthenticator.java:164-211 | a typed code: the notes it leaves, the wrong posts counted, the sign-in |
| SignInRuns.AccountsDoNotShow | ansible/reconcile/roles/keycloak/provider/src/main/java/run/catena/keycloak/CatenaClientEmailCodeAuthenticator.java:107-243 | sessions with the same posts, clocks and codes over arbitrary, changing account databases show the same answers, notes and mail jobs up to the first sign-in |
| SignInRuns.PartingIsARightCode | ansible/reconcile/roles/keycloak/provider/src/main/java/run/catena/keycloak/CatenaClientEmailCodeAuthenticator.java:164-194 | where two such sessions part, the right code was typed |
| SignInRuns.SessionBounds | ansible/reconcile/roles/keycloak/provider/src/main/java/run/catena/keycloak/CatenaClientEmailCodeAuthenticator.java:52-63 | in any session since its last sign-in at most five codes, the k-th at least 30(k-1) seconds after the first, and at most 25 posts meeting a live code |
| SignInRuns.MetIsLogged | ansible/reconcile/roles/keycloak/provider/src/main/java/run/catena/keycloak/CatenaClientEmailCodeAuthenticator.java:164-243 | the posts bounded above are all those that met a live code |
| SignInRuns.SignInIsTheLastCode | ansible/reconcile/roles/keycloak/provider/src/main/java/run/catena/keycloak/CatenaClientEmailCodeAuthenticator.java:164-243 | a post signs in exactly when it types the latest code within 600 seconds, after fewer than five posts since, and an account is admitted under the address that code went to, which is then the one signed in |
| SignInRuns.SignInClears | ansible/reconcile/roles/keycloak/provider/src/main/java/run/catena/keycloak/CatenaClientEmailCodeAuthenticator.java:182-184 | a sign-in leaves no address, code, time, sends or wrong count |
| SignInRuns.EachSignInNeedsItsCode | ansible/reconcile/roles/keycloak/provider/src/main/java/run/catena/keycloak/CatenaClientEmailCodeAuthenticator.java:164-188 | a code signs in at most once: between two sign-ins of a session a new code was sent |
| SignInRuns.CodeIsSent | ansible/reconcile/roles/keycloak/provider/src/main/java/run/catena/keycloak/CatenaClientEmailCodeAuthenticator.java:107-162 | a code is sent exactly when one is asked for, for an address that can have one, with fewer than five sent and the last 30 seconds ago; it is the one drawn, and goes to that address |
| SignInRuns.RefusalTellsTheWait | ansible/reconcile/roles/keycloak/provider/src/main/java/run/catena/keycloak/CatenaClientEmailCodeAuthenticator.java:213-226 | a refused code is refused with the limit, or with the seconds that are left, no fewer and no more |
| SignInRuns.EntryShowsTheForm | ansible/reconcile/roles/keycloak/provider/src/main/java/run/catena/keycloak/CatenaClientEmailCodeAuthenticator.java:107-120 | entering shows the code form exactly where a live code can be typed |
| SignInRuns.PostShowsTheForm | ansible/reconcile/roles/keycloak/provider/src/main/java/run/catena/keycloak/CatenaClientEmailCodeAuthenticator.java:133-211 | which form and which message each post is answered with |
| SignInRuns.FailureCountsAgainst | ansible/reconcile/roles/keycloak/provider/src/main/java/run/catena/keycloak/CatenaClientEmailCodeAuthenticator.java:196-203 | a wrong code counts against the address the last code went to |
| SignInRuns.TypedTrims | ansible/reconcile/roles/keycloak/provider/src/main/java/run/catena/keycloak/CatenaClientEmailCodeAuthenticator.java:135-168 | what is typed counts without the characters up to the space around it, and no less |
| Restic.Keeper.Handle | ansible/scripts/catena-restic-key.py:134-359 | a request's writes, in order, and its reply are those the agreement theorems speak of |
| Restic.Keeper.SetPasswordTo | ansible/scripts/catena-restic-key.py:325-359 | the re-key, then the store, then the pass file, and nothing after a failure |
| ResticAgreement.RequestLosesNothing | ansible/scripts/catena-restic-key.py:134-359 | at every write of every request no repository is lost and one is made only where nothing was stored |
| ResticAgreement.RequestAgrees | ansible/scripts/catena-restic-key.py:325-359 | killed at any write, the stored password opens what the destination holds, exactly unless it was killed right after the re-key |
| ResticAgreement.SessionAgrees | ansible/scripts/catena-restic-key.py:134-359 | over any sequence of requests, tools failing or not, a stored password opens whatever the destination holds and no repository is lost |
| ResticAgreement.RekeyedStoreAndFileAgree | ansible/scripts/catena-restic-key.py:313-359 | a successful rotate or replace leaves store and pass file equal, holding the new password |
| ResticAgreement.RefusalWritesNothing | ansible/scripts/catena-restic-key.py:134-359 | a refused request has written nothing |
| ResticReplies.ValidateMeansOpens | ansible/scripts/catena-restic-key.py:304-310 | a password is good exactly when it opens the repository at the saved address and restic gets through to say so; nothing is written |
| ResticReplies.RotateMeansRekeyed | ansible/scripts/catena-restic-key.py:313-359 | a rotation goes through exactly without a hold, with a password, and where the stored one opens the repository; the repository then opens with the new one in its place, and store and pass file hold it |
| ResticReplies.InitMeansCreated | ansible/scripts/catena-restic-key.py:252-301 | a repository is created exactly at a saved address that can be read and listed and holds nothing at all, and is then empty under the stored password |
| ResticReplies.GenerateMeansMinted | ansible/scripts/catena-restic-key.py:134-190 | a password is minted exactly where none is stored and no repository is in the way, or in the stored one's place for a new destination or a fresh start after a restore |
| ResticReplies.MintedMeans | ansible/scripts/catena-restic-key.py:134-190 | what minting has done to store, pass file and repository |
| ResticAgreement.SameLocation | ansible/scripts/catena-restic-key.py:193-209 | a bare endpoint and trailing slashes name the location of the https address written out |
| ResticAgreement.HttpLocation | ansible/scripts/catena-restic-key.py:193-209 | an http address names its own scheme, host and path |
| ResticAgreement.LocationMeans | ansible/scripts/catena-restic-key.py:193-209 | whatever names a location has such a scheme, a host before the first slash and a path behind it |
| StoreWriter.Working.Adopt | ansible/helpers/onbox_config.py:671-692 | filled key by key in any order, the secrets are the given ones laid over the missing ones; exactly the keys that changed are returned |
| StoreWriter.Working.ApplyInputs | ansible/helpers/onbox_config.py:739-781 | all inputs in and the outgoing token kept, or a key that is not the client's refused |
| StoreWriter.Working.PreserveOutgoing | ansible/helpers/onbox_config.py:695-736 | the token of the domain that is left goes into the table exactly where there is one to keep |
| StoreWriter.Working.SettleTailnetProvider | ansible/helpers/onbox_config.py:642-668 | the settled provider, the access method dropped, and whether the store changed |
| StoreWriter.Working.Ensure | ansible/helpers/onbox_config.py:595-636 | exactly the missing secrets among the wanted ones are minted |
| StoreWriter.Working.Converge | ansible/helpers/onbox_config.py:904-920 | the stages of a converge in order give the store of the theorems, or raise where it does |
| StoreMeaning.ConvergedSecret | ansible/helpers/onbox_config.py:595-692 | every secret after a converge: the stored one, else the captured one, else the given one, and where that is blank and to be minted, what is drawn |
| StoreMeaning.ConvergedSetting | ansible/helpers/onbox_config.py:739-781 | every setting but the two a converge settles: the stored one, else the given one |
| StoreMeaning.WrittenSecret | ansible/helpers/onbox_config.py:739-772 | every secret after a settings write: the given one unless it is blank, else the stored one |
| StoreMeaning.WrittenSetting | ansible/helpers/onbox_config.py:773-780 | every setting after a settings write: the given one, else the stored one |
| StoreMeaning.ConvergeRaises | ansible/helpers/onbox_config.py:761-766 | a converge raises exactly where it is given a secret that is not the client's |
| StoreMeaning.OutgoingTokenIsKept | ansible/helpers/onbox_config.py:695-736 | where a request moves the host to another domain, the old domain's token is in the table under the old domain and nothing else has changed; any other request changes nothing |
| StoreMeaning.MoveKeepsTheToken | ansible/helpers/onbox_config.py:739-781 | a settings write that brings the new domain's token keeps the old one |
| StoreMeaning.ProviderMeans | ansible/helpers/onbox_config.py:642-668 | what each store says of the tailnet, in the order it is believed |
| StoreMeaning.SettlingSettles | ansible/helpers/onbox_config.py:642-668 | settling stores the one answer, drops the access method, changes nothing else, and does nothing again |
| StoreConverge.SecondConvergeIsQuiet | ansible/helpers/onbox_config.py:904-920 | a second fill-only converge with the same inputs changes nothing exactly when neither the first's token nor its access method came late |
| StoreConverge.LateMethodHappens | ansible/helpers/onbox_config.py:653-668 | a host on a tailnet whose inputs ask for public SSH: the first converge drops the stored method, the second hears the given one |
| StoreConverge.LateTokenHappens | ansible/helpers/onbox_config.py:719-736 | a stored domain without a token, and inputs naming another and bringing one |
| StoreConverge.ThirdConvergeIsQuiet | ansible/helpers/onbox_config.py:904-920 | from the second converge on the store stays as it is, for every store and every inputs |
| StoreRuns.RunsAreSerial | ansible/helpers/onbox_config.py:498-591 | every interleaving of locking writers, killed anywhere, leaves the file of some order of their whole updates, each once, and no trace of the others |
| StoreRuns.MalformedStays | ansible/helpers/onbox_config.py:523-536 | a file that is no store is left as it is by any writers, locking or not |
| StoreSafety.MintedSecretNeverChanges | ansible/helpers/onbox_config.py:595-636 | a set internal secret survives every interleaving of fill-only converges, panel writes and other writers |
| StoreSafety.SavedSecretStands | ansible/helpers/onbox_config.py:739-781 | what a client saved stands at the end unless a later save names the same key |
| StoreSafety.SavedSettingStands | ansible/helpers/onbox_config.py:773-780 | a setting a client saved stands at the end unless a later save names it |
| StoreSafety.ForeignBlocksSurvive | ansible/helpers/onbox_config.py:559-591 | another program's block is what that program last wrote |
| StoreSafety.UnlockedSaveLosesAnother | ansible/scripts/catena-restic-key.py:103-118 | over any file, a panel write that goes through between the re-key script's load and its save, which takes no lock, leaves no trace; the file is what both writes would have made of it exactly when the panel's changed no setting and no other secret |
| DotEnv.ParseEnvPairs | ansible/seed.py:335-347 | the loop appends exactly the pairs of the file's lines, in order |
| DotEnv.Load | ansible/playbooks/lookup_plugins/dotenv.py:77-93 | the loop fills the table of the same lines, a later value winning |
| DotEnv.EmitEnv | ansible/seed.py:504-548 | the printed text, template lines first, the file's other keys after them |
| DotEnvReading.QuotedIsRead | ansible/seed.py:335-347 | a key and a value in double or single quotes are read as they are, whatever the value, with any spaces around key, "=" and quotes |
| DotEnvReading.BareIsRead | ansible/seed.py:335-347 | a value without matching quotes is what is written, less the outer spaces |
| DotEnvReading.NoPairIs | ansible/seed.py:335-347 | a line gives no pair exactly when it is blank, a comment or has no "=" |
| DotEnvReading.TemplateIsKept | ansible/seed.py:504-548 | every line of the template is printed in its place, a key's with that key, any other as it is |
| DotEnvReading.FileHasTheTemplate | ansible/seed.py:504-548 | the file starts with the template's lines, and has every pair whose key the template does not carry behind a note |
| DotEnvReading.ChosenIs | ansible/seed.py:524-542 | a key keeps what the kept file has, else gets what is given, else "" |
| DotEnvReading.LineIs | ansible/seed.py:516-519 | exactly the values with a space, a tab, "#", a quote or "$" are quoted, and unescape to themselves |
| TextMeaning.StripTakesSpaces | ansible/seed.py:335-347 | stripping takes the spaces at both ends and nothing else |
| TextMeaning.LinesAre | ansible/seed.py:335-347 | a text is its lines with one break behind each, save perhaps the last |
| DotEnvAgain.RoundTrip | ansible/seed.py:335-347 | reading what was printed gives every template key's value and every kept key's exactly when each value is on one line, without quote or backslash where it is quoted and without outer space where it is not |
| DotEnvAgain.RerunIsQuiet | ansible/seed.py:504-548 | printing over the printed file, keeping what is there, gives the same text exactly when every value is such, whatever else is handed over |
| DotEnvAgain.NothingKeptIsLost | ansible/seed.py:504-548 | every key of the file keeps its value through a run that keeps |
| DotEnvAgain.ReadersAgree | ansible/playbooks/lookup_plugins/dotenv.py:77-93 | on text broken by newlines and carriage returns alone both readers know the same keys and values |
| DotEnvAgain.ReadersDiffer | ansible/playbooks/lookup_plugins/dotenv.py:77-93 | on a vertical tab they do not |
| DotEnvTemplate.CommentLines | ansible/helpers/render_knobs.py:351-382 | the loop with its pending paragraph gives the comment lines of the theorems |
| DotEnvTemplate.RenderEnv | ansible/helpers/render_knobs.py:385-407 | the nested loops give the printed template |
| DotEnvTemplate.CommentIsComments | ansible/helpers/render_knobs.py:351-382 | no prose, however wrapped, gives the readers a pair |
| DotEnvComments.CommentSaysItsText | ansible/helpers/render_knobs.py:351-382 | a comment says its text's words, in order and no others, for any wrap that keeps them |
| DotEnvComments.TemplateSaysTheRegistry | ansible/helpers/render_knobs.py:385-407 | so does the template the registry's: the header, then of each section the heading, the explanation and its knobs' prose |
| DotEnvTemplate.TemplateReads | ansible/helpers/render_knobs.py:333-407 | the rendered template reads as the declared keys and defaults in the printed order exactly when each default is one a line can carry |
| DotEnvTemplate.SavedAnswersRead | ansible/seed.py:494-501 | what the installer saves reads back as its answers and the file's other keys under the same condition |
| Dns.Skip | ansible/helpers/public_https.py:54-61 | the loop over labels ends on every input, past the name or past the data |
| Dns.ParseResponse | ansible/helpers/public_https.py:64-92 | the offset loops give the parse of the theorems |
| Dns.WellFormedIsRead | ansible/helpers/public_https.py:64-92 | every well-formed response to the query without an error gives exactly its IN A addresses, in order, whatever follows its answers |
| Dns.ErrorsAreRead | ansible/helpers/public_https.py:64-76 | a response with code 3 says that there is no such name; one with another error, or another id, gives nothing |
| Dns.TruncatedIsUnusable | ansible/helpers/public_https.py:64-92 | every proper prefix of header, questions and at least one answer gives nothing |
| Dns.CutQuestionReadsAsEmpty | ansible/helpers/public_https.py:77-84 | with no answer to read, a cut that leaves the last question's name to be skipped reads as an empty answer, and every other cut gives nothing |
| Dns.CutsAreNoticed | ansible/helpers/public_https.py:64-92 | every cut of a response gives nothing exactly when it has an answer to read, or no question |
| Images.LessIsTotal | ansible/playbooks/filter_plugins/image_pin.py:77-99 | the version keys are strictly and totally ordered |
| Images.PinIsNewest | ansible/playbooks/filter_plugins/image_pin.py:102-144 | what runs is of the floor's repository and older than neither floor nor comparable pin |
| Images.PinRuns | ansible/playbooks/filter_plugins/image_pin.py:102-144 | the pin runs exactly where it is of the floor's repository, compares with the floor and is newer |
| Images.PinIsMonotone | ansible/playbooks/filter_plugins/image_pin.py:118-144 | a newer floor never runs something older |
| Images.NoRunGoesBelowTheFloor | ansible/playbooks/filter_plugins/image_pin.py:118-144 | in any run of converges and arbitrary pin writes no converge deploys below the floor it ships or from another repository |
| Versions.FullVersionIsRead | ansible/playbooks/filter_plugins/image_pin.py:44-99 | every full version printed from its numbers, with or without prefix, fourth number, suffix and a newline at its end, is ordered by those numbers |
| Versions.ShortVersionIsRead | ansible/playbooks/filter_plugins/image_pin.py:73-98 | two numbers alone are the release with patch 0 |
| Versions.WordVersionIsRead | ansible/playbooks/filter_plugins/image_pin.py:69-94 | two numbers and a word compare within the major and the word alone |
| Versions.NewerByNumbers | ansible/playbooks/filter_plugins/image_pin.py:77-99 | of two full versions the one with the greater numbers, the fourth included, is the newer |
| Versions.PreReleaseIsBelow | ansible/playbooks/filter_plugins/image_pin.py:77-99 | a suffix makes a version older than its numbers alone, and leaves it newer than the releases those are newer than |
| VersionTags.TagsThatCompare | ansible/playbooks/filter_plugins/image_pin.py:44-99 | a tag compares exactly when, less a final newline, it is three or four runs of digits and a suffix or none, two runs, or two runs and a word |
| VersionTags.FullIsOrdered | ansible/playbooks/filter_plugins/image_pin.py:44-99 | each by its numbers, leading zeros and all |
| References.NameReadsBack | ansible/helpers/fetch_release.py:124-153 | a reference that parses is read back from its own name exactly unless an empty tag stood behind a space |
| References.RepositoryHasNoTag | ansible/helpers/catena_admin_release.py:52-64 | a colon in a repository that parses is its registry's port |
| ReferenceForms.RefSplits | ansible/playbooks/filter_plugins/image_pin.py:52-66 | a digest and the tag behind the last colon are cut off, a registry's port is not |
| ReferenceForms.RegistryReferenceIsRead | ansible/helpers/fetch_release.py:137-153 | a registry, a path, a tag or none and a digest or none are read as what they are |
| ReferenceForms.HubReferenceIsRead | ansible/helpers/fetch_release.py:137-153 | without a registry the path is one of the Docker Hub |
| ReferenceForms.ParsedIsValid | ansible/helpers/catena_admin_release.py:52-64 | whatever parses is of one of those two kinds |
| ReferenceForms.ComponentIs | ansible/helpers/fetch_release.py:91-94 | a path's components are runs of small letters and digits with dots, underscores and hyphens between |
| References.SpaceBeforeEmptyTag | ansible/helpers/fetch_release.py:124-153 | a reference that parses and does not read back |

## Left out

- FirewallKernel.WalkIsExact: for rulesets of modelled targets, in which no destination list tells two own addresses apart and each rule's flag and target are read right, and jumps that can be ranked within the depth cap; `FirewallLimits` shows what each of the first three shuts out.
- FirewallKernel.WalkDecides: rules stand as `iptables-save` prints them; `shlex` and the line splitting of `parse_ruleset` are not part of the model, nor is text it never prints: ports that are no numerals, and the open range "N:", which iptables takes to 65535 and the walk for N alone (`OpenRangeIsReadAsOnePort`).
- FirewallKernel.TargetReadExactly: a line that ends in its flag, which `iptables-save` never prints, raises in the source; here its target is the empty text.
- Firewall.Walk.Inbound: DNAT, REDIRECT and the other targets of the continuing list let the packet carry on unchanged, as the source has them; `ipaddress` is a function from text to networks.
- DispatchSafety.AlwaysServed: writes are atomic replacements; modes, ownership, descriptors and temporaries are not modelled, and the remove and rename of a tampered running generation is what starting well excludes.
- DispatchSafety.RefusalRollsBack: for moves whose undo could write the key file back; a stranded one is the other outcome.
- KeyLines.TextsRender: sudo and AcceptEnv texts are functions of the path; the generation's hash is any twelve hexadecimal digits.
- Layers.LayerWellFormed: modes, owners and times of entries, tar decoding and compression are not modelled.
- LayerOverlay.LayerIsOverlay: for plain layers as the specification describes them; hard links are in the model and in the projection theorem, not in the overlay.
- LayerUnpack.Unpacker.ApplyLayer: a whiteout of "." at the top removes the root itself, where the next thing written fails; here the root stays, empty. One of ".." fails, with the parent emptied, and what a failed run leaves is not modelled.
- Symlinks.VettedLinkStaysInside: the limit of links is a parameter, 40 in the source.
- SignInRuns.AccountsDoNotShow: pages, errors, notes and mail jobs; time is not an observation. Mail delivery, the brute-force detector's own counts, events and templates are not modelled, and eligibility is a function of the request's database.
- SignInRuns.SessionBounds: for a clock that is positive and never goes back; times are unbounded integers.
- ResticAgreement.SessionAgrees: restic and rclone answer truthfully when they answer; the other top-level blocks of the store belong to the store's own model.
- StoreConverge.SecondConvergeIsQuiet: values are texts, nulls and the token table; numbers, lists and booleans in the store are not modelled, and the zones setting gives its cookie keys by a function.
- StoreRuns.RunsAreSerial: JSON text, file modes and the wait for the lock, whose end is a writer that goes away with nothing written.
- StoreSafety.ForeignBlocksSurvive: the engines' writes are read-modify-writes of one block under the lock; their code is not part of this model.
- DotEnvTemplate.TemplateReads: `textwrap` is a function that gives lines without breaks, and for the words of the prose one that keeps them.
- DotEnvAgain.RoundTrip: prompts, warnings, file modes and the choice of which `.env` the lookup reads are not modelled.
- Dns.WellFormedIsRead: names are not decoded, as the source does not; sockets, timeouts and the choice of server are not modelled.
- Images.NoRunGoesBelowTheFloor: digits are ASCII.
- The settings API's reads, the knob registry's own checks, the tailnet control APIs, `policy_reasons`, Keycloak's flow builders, SSH and HTTP plumbing, and the drift and manifest filters: shallow logic, or logic of programs outside this repository.
