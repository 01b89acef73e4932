# Verified model of the notice, summary, sitemap, reading and account cores

This project restates in Dafny the parts of the repository whose correctness is
hardest to see by reading, and proves what their documentation promises. Code that
changes things step by step (the union-find, the work queue's files, the flood fill,
the sitemap writer, the account tables) is a class or a method with loops, proved
against a specification; protocols with several actors are step relations, proved
over every run. `dafny verify dfyconfig.toml` checks everything.

## The parts

**Market reconciliation** (`Ordre`, `Groupes`, `Annonces`, `Regroupement`, `Composantes`,
`Identites`, `Canonicalisation`, `Garanties`, `LignesEmises`, `Fraicheur`, `Canonicaliser`). A batch
of publication channels is sorted, filtered, grouped by exact then soft keys, given
uids against the stock, merged, refolded and emitted. `Regroupement` and `Composantes` say
what groups are, `Identites` who gets which uid, `Garanties` what a run promises,
`LignesEmises` what its lines say and hold, told from the batch alone, `Execution`
(file `Canonicaliser.dfy`) is the imperative run, and `Fraicheur` gives batches whose
runs are not stable. Running again on what was stored is stable exactly when each group
that keeps a uid outweighs the groups that strike one of its uids, a count over the
batch and the stock before the run. The vocabulary is the source's own French.

**Summary work queue** (`Summaries`, `SummaryRuns`, `SummaryAnswers`, `SummaryHandovers`). Drivers share
two files of jobs. One step is one thing a driver does under the lock or between two
awaits; the answer of the model is left open. A driver that has read the stop flag and not yet taken a
job is a state of its own, so the race between flag and lock is in the model.
`SummaryAnswers` tells what becomes of a decision by the answers its job has had,
`SummaryHandovers` what jobs left behind by handovers tell of the pools.

**Text detector** (`Pixels`, `Detect`, `DetectLines`, `LineCloseness`). Dilation,
explicit-stack flood fill, boxes, and the numbering of lines, over real probabilities;
which segments share a line, from their middles and heights alone.

**Sitemap** (`Octets`, `Sitemap`, `SitemapBuild`, `SitemapCheck`, `SitemapRules`,
`SitemapAccepted`, `SitemapIndex`, `SitemapPublish`, `SitemapSections`, `SitemapListed`). The
writer, the check that reads its bytes back, each of its rules told from those bytes, the
exact condition under which it accepts what the writer writes, and what is read back: every
entry of the source's tables, in order. Text is octets; a
file's body is what it is before compression.

**Smaller algorithms**: the bisection of date ranges (`Bisect`), iCalendar lines
(`Ics`), greedy CTC reading and the placing of words (`Reading`), int8 weights written
in Python and read back in Rust (`Weights`, `Networks`, `WeightRoundTrip`,
`WeightCollisions`).

**Address change** (`Accounts`, `AccountRuns`). The token, user and identity tables;
each SQL statement is one step, but for the deletion of an identity, which reads its
guard in one and deletes in another, as two such statements running at once do at the
isolation the source leaves in place. Handlers interleave step by step, and a log of
what happened carries the whole-run results. Tokens are named by their digests and drawn
fresh.

## What the model takes as given

- `Annonces.Contexte` holds, uninterpreted, the folding and trimming of text, the local
  day of a deadline, the test-notice filter, the digest behind a struck uid, and the
  recasing of titles. The results hold for every choice of them.
- `Sitemap.Calendar` writes and reads dates; it is asked only that what it writes holds
  no angle bracket and that a publishable date reads back.
- Bisection takes the upstream's count over a span to be the sum over its days.
- Dates, deadlines and token times are integers; probabilities, pixels and weights are
  reals; indices and counts are unbounded.
- Iteration over a hash map is an arbitrary choice of the next key.

## Where the code and its comments part

- summary.rs, line 1000, says that jobs are left because every pool handed over. Undisturbed
  by a signal, that is so of every batch exactly when no two pools that pull together
  serve one shape (`SummaryHandovers.LeftExplainedIff`). With two models of the free door
  one handover is enough (`SummaryHandovers.HandoverStrands`).
- detect.rs, line 163, says that segments within half a height of each other share a
  line. Of three of height 10 at middles 5, 9 and 13 the last two do not
  (`LineCloseness.CloseApart`). `LineCloseness.OneLineIff` says which pairs do, and
  `LineCloseness.CloseSharesIff` for which pages the comment is true.
- annonces lib.rs, lines 656-659, promises that a uid is never recomputed and that a
  loser striking the disputed uid refolds. The refold only sees uids that are elected:
  where the winner merged that uid away a line is emitted under a redirected uid
  (`Fraicheur.LigneAbsorbeeSansFraicheur`), and where it refolds the next run can
  strike a new uid (`Fraicheur.InstableSansFraicheur`). `Garanties.StabiliteSsi` says
  when it does not.
- account.rs, lines 139-140, promises that an unlinking never takes the last means of
  access. Two that overlap can (`AccountRuns.OverlapShutsOut`); none does while no two
  identities of one account are being unlinked (`AccountRuns.AccessKeptIff`).
- models.py, lines 66-75, names what it stores after the weight and looks at no other
  name. A graph where a tensor bears such a name does not read back, unless that tensor is
  a big one that comes before (`WeightCollisions.ReadsBackIff`).

## Model

| member | source | states |
|---|---|---|
| `UnionFind.JoindreFondDeuxClasses` | packages/lj-annonces/src/lib.rs:590-599 | joining two channels merges exactly their two classes: two channels share a class afterwards if and only if they did before or the join relates theirs |
| `UnionFind.CompressionNeutre` | packages/lj-annonces/src/lib.rs:581-587 | pointing a channel straight at its root changes the root of no channel |
| `UnionFind.LienJoint` | packages/lj-annonces/src/lib.rs:590-599 | hanging the greater root under the lesser is the join of the two classes, the root staying the least index of its class |
| `UnionFind.Groupes.constructor` | packages/lj-annonces/src/lib.rs:574-579 | at first every channel is alone, with its own engine |
| `UnionFind.Groupes.Racine` | packages/lj-annonces/src/lib.rs:581-587 | gives the root and leaves the partition as it was, though it rewrites parents on the way |
| `UnionFind.Groupes.Unir` | packages/lj-annonces/src/lib.rs:590-599 | the arrays of parents and engines stand for the joined partition, the root carrying the union of its members' engines |
| `UnionFind.Groupes.UnirSiMoteursDisjoints` | packages/lj-annonces/src/lib.rs:604-614 | joins if and only if the channels are already together or their classes share no engine; says which; a refusal changes no class |
| `Annonces.AvantEstUnOrdre` | packages/lj-annonces/src/lib.rs:668-679 | the sort key orders channels totally and transitively, references first, then engine trust, then uid |
| `Ordre.LexSsi` | packages/lj-annonces/src/lib.rs:668-679 | uids are compared as texts: the same, or smaller at the first character that differs |
| `Annonces.FusionnerAboutit` | packages/lj-annonces/src/lib.rs:833-864 | folding a non-empty group of displayable channels never meets either of its two panics |
| `Annonces.FusionnerEchoueSi` | packages/lj-annonces/src/lib.rs:841-864 | folding panics exactly when no source has an address to act at, or none has an object |
| `Annonces.ClesDisjointes` | packages/lj-annonces/src/lib.rs:518-543 | a key of one kind, exact, primary or fallback, is never a key of another, so one index can hold the three |
| `Annonces.ClesPresentes` | packages/lj-annonces/src/lib.rs:518-532 | a channel has a primary key if and only if its folded buyer and reference are there and differ, a fallback key if and only if its folded buyer is there |
| `Annonces.ClePrimaireSsi` | packages/lj-annonces/src/lib.rs:518-524 | two channels share a primary key if and only if their folded buyers and their folded references are the same, or the buyer of one is the buyer of the other, a bar and a text `q`, where the reference of the other is `q`, a bar and its own |
| `Annonces.ClePrimaireDit` | packages/lj-annonces/src/lib.rs:518-524 | so where no folded buyer holds a bar, two channels share one if and only if they have one folded buyer and one folded reference |
| `Annonces.ClePrimaireAmbigue` | packages/lj-annonces/src/lib.rs:518-524 | and where one does, two different buyers can: for all texts `p`, `q`, `r`, buyer `p|q` with reference `r` and buyer `p` with reference `q|r` |
| `Annonces.CleRepliSsi` | packages/lj-annonces/src/lib.rs:528-543 | two channels share a fallback key if and only if their buyers are the same and their days and objects are, up to a bar in a day, or a bar in one buyer takes in the start of the day and object of the other, as above |
| `Annonces.CleRepliDit` | packages/lj-annonces/src/lib.rs:528-543 | so where no folded buyer and no written day holds a bar, if and only if they have one folded buyer, one day and one object of at most eighty characters |
| `Annonces.BarreConfond` | packages/lj-annonces/src/lib.rs:518-543 | concrete channels of two buyers share a primary key, and others a fallback key, under a fold that changes nothing |
| `Regroupement.ExactesSsiChaine` | packages/lj-annonces/src/lib.rs:697-711 | after the exact phase two channels are in one group if and only if a chain of shared own or join keys links them |
| `Regroupement.PhaseMolleGrossit` | packages/lj-annonces/src/lib.rs:712-727 | at every point of the soft phase the groups are unions of exact groups, and no two exact groups with a common engine are united, whatever was refused or reassigned |
| `Regroupement.MemeMoteurSsiChaine` | packages/lj-annonces/src/lib.rs:601-614 | two channels of one engine end in one group if and only if exact keys link them |
| `Regroupement.CleDansUnGroupe` | packages/lj-annonces/src/lib.rs:697-727 | no exact key is held by two final groups |
| `Composantes.ClassesRapprochees` | packages/lj-annonces/src/lib.rs:712-727 | the soft phase, with its index and its keys reassigned to newcomers, gives the groups that comparing each channel with the last earlier one of the same key gives: the two made one unless they share an engine |
| `Composantes.GroupeEnChaine` | packages/lj-annonces/src/lib.rs:697-727 | two channels of one group are linked by a chain of channels, each sharing with the next an own uid, a join key, a primary key or a fallback key |
| `Composantes.GroupeEntierSsi` | packages/lj-annonces/src/lib.rs:601-614 | the group of a channel is all that such chains lead to from it, if and only if no two exact groups among that share an engine |
| `Composantes.DeuxMoteurs` | packages/lj-annonces/src/lib.rs:712-727 | two channels of different engines with one soft key, neither sharing a key with any other, are a group |
| `Identites.GagnantUnique` | packages/lj-annonces/src/lib.rs:753-769 | a claimed uid is won by one group at most |
| `Identites.GagnantExiste` | packages/lj-annonces/src/lib.rs:753-769 | a claimed uid is won by some group, which then owns it |
| `Identites.ClassementUnique` | packages/lj-annonces/src/lib.rs:771-783 | the ranking of a group's uids, most carried first and ties by name, is the only sorted arrangement of them, so the order a hash map gives them in is indifferent |
| `Identites.EluNonAbsorbe` | packages/lj-annonces/src/lib.rs:771-796 | a uid elected from the stock is absorbed by no group |
| `Identites.IdentiteGardee` | packages/lj-annonces/src/lib.rs:740-796 | a claimed uid is elected, or absorbed by exactly one group, and never both |
| `Identites.BilanDesPoids` | packages/lj-annonces/src/lib.rs:740-769 | summed over uids a group won, it carries at least the keys any other group does, and on equality it is the earlier one |
| `Identites.GagneEncoreSsi` | packages/lj-annonces/src/lib.rs:753-769 | against the stock its own run wrote, a group wins the uid it elected again if and only if it outweighs each rival: a group that keeps no uid and strikes one of its, by keys that are channels of the batch or were assigned to a uid of the group |
| `Identites.Stabilite` | packages/lj-annonces/src/lib.rs:740-796 | where every keeping group outweighs its rivals, each group elects the same uid against that stock and has no other to absorb |
| `Identites.Instabilite` | packages/lj-annonces/src/lib.rs:740-813 | where one does not, some group elects another uid, if no two groups would strike one uid |
| `Identites.TenuSuit` | packages/lj-annonces/src/lib.rs:740-796 | what makes a run stable holds again of the next one |
| `Reconciliation.ReplieesRepartissent` | packages/lj-annonces/src/lib.rs:798-813 | once refolded by uid the lines partition the channels: each channel in one line, once, no line empty, no two lines of one uid even if strikes collide |
| `Garanties.ResultatExiste` | packages/lj-annonces/src/lib.rs:815-831 | the run ends with a result: the take of a channel never finds it taken, and every line folds |
| `Garanties.Conservation` | packages/lj-annonces/src/lib.rs:680-831 | the sources of all lines are the filtered batch rearranged, nothing lost nor doubled; emitted uids are pairwise distinct; every line has a source |
| `Garanties.OrdreIndifferent` | packages/lj-annonces/src/lib.rs:668-831 | two arrangements of one batch, in which a uid names one channel, give the same result entire |
| `Garanties.UidsEmis` | packages/lj-annonces/src/lib.rs:774-813 | the uids of the lines are exactly the uids the groups elect |
| `Garanties.FusionsDisent` | packages/lj-annonces/src/lib.rs:791-795 | the merges are exactly the absorptions: from a uid a group owns without electing it, to the uid it elects |
| `Garanties.AucuneIdentitePerdue` | packages/lj-annonces/src/lib.rs:737-796 | every claimed stock uid is emitted or merged away; none is merged twice; every merged uid is of the stock and no merge's target; every target is of the stock and emitted, so redirects never chain |
| `Garanties.LigneAbsorbeeSsiFrappee` | packages/lj-annonces/src/lib.rs:784-813 | a merged uid is also the uid of a line if and only if a group that owned nothing struck it again |
| `Garanties.AucuneLigneAbsorbeeSsi` | packages/lj-annonces/src/lib.rs:784-813 | over a whole batch and stock: no line carries a uid merged away if and only if no group that keeps no uid would strike one that some group absorbs |
| `Garanties.AucuneLigneAbsorbee` | packages/lj-annonces/src/lib.rs:784-813 | when the groups that keep no uid strike none the batch claims, no emitted line carries a merged uid |
| `Garanties.EcritureDit` | packages/lj-store/src/repository/annonces.rs:764-903 | what the store holds after a run: each channel of the batch at its line's uid, and every other channel redirected where its uid was merged |
| `Garanties.StabiliteSsi` | packages/lj-annonces/src/lib.rs:651-662 | where the digest gives no two channels of the batch one uid, running again on what the first run stored gives the same lines, and then no merge, if and only if each group that keeps a uid outweighs its rivals |
| `Garanties.StabiliteDesRuns` | packages/lj-annonces/src/lib.rs:651-662 | where they do, whatever the digest, every later run of the batch, each on what the one before stored, gives the same lines and no merge |
| `Garanties.NeuvesTiennent` | packages/lj-annonces/src/lib.rs:774-790 | they do where the groups that keep no uid strike none the batch claims |
| `LignesEmises.FusionnerDit` | packages/lj-annonces/src/lib.rs:833-904 | a line's address is that of its first channel that has one and does not come from boamp, of its first that has one if all do; its date the earliest known, else the day of the run; its reference the first there is; its title the first object that names something, else the first there is |
| `LignesEmises.ChaqueLigneDite` | packages/lj-annonces/src/lib.rs:815-831 | so does every line of a result |
| `LignesEmises.SourcesSsi` | packages/lj-annonces/src/lib.rs:680-695 | a channel is in a line if and only if it is in the batch, has an object once trimmed and one of three addresses, and is no demonstration |
| `LignesEmises.LignesEnOrdre` | packages/lj-annonces/src/lib.rs:668-679 | the channels of each line go by trust, with a reference first, then by engine, then by uid, and the lines in the order of their first channels |
| `LignesEmises.GroupeDansUneLigne` | packages/lj-annonces/src/lib.rs:729-831 | two channels of one group are in one line |
| `LignesEmises.EluDit` | packages/lj-annonces/src/lib.rs:753-790 | a group carries off a uid if it holds more of its keys than any other group, or as many and comes first; it elects the one it holds by most keys, the smallest of as many, and where it carries off none the one struck from its first channel |
| `LignesEmises.UidDit` | packages/lj-annonces/src/lib.rs:774-831 | the line that holds a channel bears the uid so told of its group |
| `LignesEmises.FusionsDites` | packages/lj-annonces/src/lib.rs:791-795 | the merges are, for each group, from every other uid it carries off to its own |
| `Fraicheur.InstableSansFraicheur` | packages/lj-annonces/src/lib.rs:798-813 | for every pair of channels where one strikes again the uid the other won by precedence, the second run emits a uid the first did not |
| `Fraicheur.LigneAbsorbeeSansFraicheur` | packages/lj-annonces/src/lib.rs:784-813 | for every pair where the winner absorbs the uid the loser strikes again, that uid is both emitted and merged |
| `Fraicheur.DisputeExiste` | packages/lj-annonces/src/lib.rs:784-813 | concrete channels of the first family exist |
| `Fraicheur.AbsorptionExiste` | packages/lj-annonces/src/lib.rs:784-813 | concrete channels of the second family exist |
| `Execution.Grouper` | packages/lj-annonces/src/lib.rs:697-727 | the two loops over keys, with the hash index and the mutated arrays, compute the classes the phases define |
| `Execution.Rassembler` | packages/lj-annonces/src/lib.rs:729-735 | groups each root's members in order while compressing paths, and keeps the partition |
| `Execution.Revendiquer` | packages/lj-annonces/src/lib.rs:740-752 | records for each stock uid the keys of one group that carry it |
| `Execution.Arbitrer` | packages/lj-annonces/src/lib.rs:753-769 | each disputed uid goes to the group with most keys, the first on a tie, whatever order the hash map is walked in |
| `Execution.Classer` | packages/lj-annonces/src/lib.rs:775-783 | sorts what a group kept into its ranking |
| `Execution.Elire` | packages/lj-annonces/src/lib.rs:774-796 | gives each root's elected uid with its members, and the merges |
| `Execution.ReplierElections` | packages/lj-annonces/src/lib.rs:802-813 | the loop over the uid index folds elections of one uid into the first of them, indices sorted |
| `Execution.Emettre` | packages/lj-annonces/src/lib.rs:815-829 | takes each channel out of its slot once and folds each line |
| `Execution.Canonicaliser` | packages/lj-annonces/src/lib.rs:663-831 | the whole imperative run computes the function the guarantees above are about |
| `Summaries.SharedFiles.PushBack` | apps/lj-ingest/src/summary.rs:458-463 | puts the job at the back of the file of its shape, the other file untouched |
| `Summaries.SharedFiles.PushFront` | apps/lj-ingest/src/summary.rs:465-470 | puts the job back at the front of the file of its shape |
| `Summaries.SharedFiles.PopFront` | apps/lj-ingest/src/summary.rs:479-482 | takes the front job of one file, or none if it is empty |
| `Summaries.SharedFiles.Take` | apps/lj-ingest/src/summary.rs:474-483 | takes the front job of the shape the door prefers, else of the other, among the shapes it has an engine for |
| `SummaryRuns.JobsConserved` | apps/lj-ingest/src/summary.rs:579-640 | in every reachable state each enqueued decision is in exactly one place: queue, one driver's hands, channel, written, dropped or lost with a closed channel |
| `SummaryRuns.StepConserves` | apps/lj-ingest/src/summary.rs:579-640 | no step of any driver makes or loses a decision |
| `SummaryRuns.RunsSound` | apps/lj-ingest/src/summary.rs:450-483 | in every reachable state queued jobs have fewer than 3 attempts and 8 refusals, stand in their shape's file, and no driver holds a shape it has no engine for |
| `SummaryRuns.StepKeepsGate` | apps/lj-ingest/src/summary.rs:558-575 | each step keeps the count of unfinished rank-0 drivers exact, and never raises it |
| `SummaryRuns.GateHolds` | apps/lj-ingest/src/summary.rs:565-575 | in rank order, a driver of a later rank can look for a job only once every rank-0 driver has finished |
| `SummaryRuns.RunsAttended` | apps/lj-ingest/src/summary.rs:474-483 | with no handover, stop or closed channel, a file that is not empty always has an unfinished driver that serves it |
| `SummaryRuns.NothingStranded` | apps/lj-ingest/src/summary.rs:556-640 | then, once no driver works, both files are empty and every decision is written, dropped or in the channel |
| `SummaryRuns.LeftOnlyIfCut` | apps/lj-ingest/src/summary.rs:997-1004 | jobs left behind when all drivers have finished mean a handover, a stop or a closed channel |
| `SummaryAnswers.FailedSaid` | apps/lj-ingest/src/summary.rs:625-637 | a job that failed goes last in its file with one failure more, unless that is the third, which drops its decision; nothing else changes |
| `SummaryAnswers.UnavailableSaid` | apps/lj-ingest/src/summary.rs:610-624 | likewise one whose model was unavailable, until the eighth time |
| `SummaryAnswers.GivenBack` | apps/lj-ingest/src/summary.rs:600-609 | a busy or exhausted pool puts the job back first in its file as it was; the exhausted one leaves |
| `SummaryAnswers.TakeSaid` | apps/lj-ingest/src/summary.rs:472-484 | a door takes the first job of its preferred shape, collages for Luna and rewritings for the others, where it has an engine and a job waits, else of the other shape, else leaves |
| `SummaryAnswers.DeliveredCount` | apps/lj-ingest/src/summary.rs:592-599 | in every run a decision is on its way, stored or lost exactly as often as its job was answered with a text |
| `SummaryAnswers.DroppedIff` | apps/lj-ingest/src/summary.rs:610-637 | in every run a decision enqueued once is dropped if and only if its job was answered Failed three times or Unavailable eight times, and is never answered so more often |
| `SummaryAnswers.TriedAgain` | apps/lj-ingest/src/summary.rs:592-637 | until then, and until a text comes, it is in a file or being tried, its job counting its failures and refusals; it is answered with a text at most once |
| `SummaryAnswers.FilledInOrder` | apps/lj-ingest/src/summary.rs:931-960 | each file begins with the batch's jobs of its shape in their order |
| `SummaryAnswers.ChannelBounded` | apps/lj-ingest/src/summary.rs:961-980 | never more than 64 texts wait for the store |
| `SummaryHandovers.LeftExplainedIff` | apps/lj-ingest/src/summary.rs:997-1002 | however drivers are told apart into pools, jobs left by an undisturbed run mean that each pool able to serve them has handed over, for batches of `n` jobs or more, whatever `n`, if and only if no two pools that pull together serve one shape |
| `SummaryHandovers.EachExplainedIff` | apps/lj-ingest/src/summary.rs:997-1002 | driver by driver: if and only if no two drivers that pull together serve one shape |
| `SummaryHandovers.HandoverStrands` | apps/lj-ingest/src/summary.rs:997-1002 | of two models of the free door and one job, one hands over after the other has found the queue empty, and the job is left though one pool never refused it |
| `SummaryRuns.NoDeadlock` | apps/lj-ingest/src/summary.rs:558-640 | while a driver is unfinished some step is enabled |
| `SummaryRuns.StepDescends` | apps/lj-ingest/src/summary.rs:579-640 | a measure falls at every step but a busy answer, which raises it by two |
| `SummaryRuns.WorkBounded` | apps/lj-ingest/src/summary.rs:579-640 | every run has at most 33 steps a job, 5 a driver, 3 a busy answer, and 2 |
| `SummaryRuns.StopDrains` | apps/lj-ingest/src/summary.rs:580-584 | once stopping is set it stays, and each driver takes at most the job it was already past the check for |
| `SummaryRuns.NoneLostWhileOpen` | apps/lj-ingest/src/summary.rs:597-600 | nothing written is lost while the receiver is open |
| `SummaryRuns.BatchAccounted` | apps/lj-ingest/src/summary.rs:979-1004 | the processed counter less what is left is what was skipped, written or dropped, and never underflows |
| `Pixels.NeighboursAre` | apps/lj-htr/src/detect.rs:154-161 | the neighbours of a pixel are exactly the pixels of the map at distance one in either direction or both, each once |
| `Pixels.ClosedHoldsComponents` | apps/lj-htr/src/detect.rs:112-129 | a set of pixels closed under lit neighbours holds the whole component of each of its pixels |
| `Detect.Dilate` | apps/lj-htr/src/detect.rs:98-105 | the loops light a pixel if and only if it or its left, upper or upper-left pixel is above the threshold |
| `Detect.DilatedIff` | apps/lj-htr/src/detect.rs:98-105 | a pixel is lit if and only if it, the one on its left, the one above, or the one above that on its left is over 0.3 |
| `Detect.MeasuresUnique` | apps/lj-htr/src/detect.rs:114-129 | a set of pixels has one tight box, size and sum |
| `Detect.Visit` | apps/lj-htr/src/detect.rs:112-129 | the explicit-stack fill marks exactly the 8-connected component of its start, and gives its tight box, size and sum; it ends |
| `DetectLines.ComponentsPartition` | apps/lj-htr/src/detect.rs:106-111 | every lit pixel is in exactly one visited component |
| `DetectLines.OneVisitIffLinked` | apps/lj-htr/src/detect.rs:106-129 | two lit pixels fall in one visit if and only if a path of lit neighbours joins them |
| `DetectLines.KeptIff` | apps/lj-htr/src/detect.rs:130-136 | a set of pixels gets a box if and only if two of them are two columns apart, two are two rows apart, and their light is half their number at least |
| `DetectLines.BoxGrown` | apps/lj-htr/src/detect.rs:137-149 | a box passes the bounds of its component by one margin, which times their perimeter is 1.6 times their area, on each of its four sides, or stops at the edge of the map where that leaves less |
| `DetectLines.BoxHolds` | apps/lj-htr/src/detect.rs:130-149 | a box kept, grown and clipped holds every pixel of its component, on the page's scale |
| `DetectLines.FindBoxes` | apps/lj-htr/src/detect.rs:97-150 | the scan gives the boxes of the components kept, in the order of their first pixels |
| `DetectLines.StartsAre` | apps/lj-htr/src/detect.rs:169-181 | a segment joins the current line if and only if its middle is within half its height of the middle of the segment that began the line |
| `DetectLines.LinesByLevel` | apps/lj-htr/src/detect.rs:169-181 | two segments have one line number if and only if one segment began both their lines |
| `LineCloseness.OneLineIff` | apps/lj-htr/src/detect.rs:169-181 | two segments share a line if and only if some segment at the upper one or above opens a line and all after it down to the lower are close to it: from middles and heights alone |
| `LineCloseness.CloseApart` | apps/lj-htr/src/detect.rs:163-181 | segments within half a height of each other need not share a line: of three of height 10 at middles 5, 9 and 13 the last two do not |
| `LineCloseness.CloseSharesIff` | apps/lj-htr/src/detect.rs:163-181 | all that are within half a height share lines if and only if being so and being so from each segment to the next are the same on the page |
| `DetectLines.LinesOrder` | apps/lj-htr/src/detect.rs:165-184 | numbering loses no segment, and the result reads line by line, left to right |
| `DetectLines.LinesTopDown` | apps/lj-htr/src/detect.rs:163-187 | a line of a smaller number is nowhere lower: the middles of its segments are no further down |
| `DetectLines.LinesWithoutGap` | apps/lj-htr/src/detect.rs:163-187 | lines are numbered from 0 without a gap |
| `DetectLines.NumberLines` | apps/lj-htr/src/detect.rs:165-184 | the in-place sorts and the loop over levels give that numbering |
| `DetectLines.Segments` | apps/lj-htr/src/detect.rs:97-152 | the whole of it |
| `Octets.ReadTagValues` | apps/lj-ingest/src/sitemap.rs:348-363 | the loop over the rest of the text gives the values the scan is defined to give |
| `Octets.TagValuesAre` | apps/lj-ingest/src/sitemap.rs:345-363 | in text printed from tags and plain text the scan reads exactly what stands between each opening tag and the next closing one |
| `Octets.MatchesAre` | apps/lj-ingest/src/sitemap.rs:257-263 | counting an opening tag in printed text counts the tags |
| `Sitemap.XmlEscapeIs` | apps/lj-ingest/src/sitemap.rs:156-161 | the three chained replacements are one pass over the characters |
| `Sitemap.UnescapeEscape` | apps/lj-ingest/src/sitemap.rs:156-161 | a reader of the entities gets the value back |
| `Sitemap.EscapeInjective` | apps/lj-ingest/src/sitemap.rs:156-161 | two values escape alike only if they are the same |
| `Sitemap.EscapePlain` | apps/lj-ingest/src/sitemap.rs:156-161 | an escaped value holds no angle bracket |
| `Sitemap.LatestIsMax` | apps/lj-ingest/src/sitemap.rs:529-547 | a file's date is the greatest publishable date of its entries, none when there is none |
| `Sitemap.SlicesCover` | apps/lj-ingest/src/sitemap.rs:502-566 | the files of a section, one after another, hold its entries, all of them, in order |
| `Sitemap.SectionWriter.Push` | apps/lj-ingest/src/sitemap.rs:529-541 | adds one entry, cutting a file at 50 000; files and pending entries stand for what was pushed |
| `Sitemap.SectionWriter.Flush` | apps/lj-ingest/src/sitemap.rs:543-564 | makes one numbered file of the pending entries, dated by their latest date or the run, and nothing if there are none |
| `Sitemap.SectionWriter.Finish` | apps/lj-ingest/src/sitemap.rs:568-571 | gives files of 1 to 50 000 entries, all full but perhaps the last |
| `SitemapBuild.SectionsHome` | apps/lj-ingest/src/sitemap.rs:390-471 | every address pushed is on the site's own origin |
| `SitemapSections.SectionsAre` | apps/lj-ingest/src/sitemap.rs:390-471 | the seven sections are, entry by entry and in order, the static pages, the jurisdictions with their years' pages, the collections of norms with theirs, the departments and the notices, the texts and the articles, the entities and the decisions, each with its address written out and the date of its table or the day of the run |
| `SitemapListed.HubPathsIff` | apps/lj-ingest/src/sitemap.rs:398-412 | the second section lists a path if and only if it is a jurisdiction's page or page `n` of one of its years, `n` from 1 to the number of pages, or 1 alone |
| `SitemapListed.HubPageAt` | apps/lj-ingest/src/sitemap.rs:402-410 | and each of those pages at its place |
| `SitemapListed.NormPathsIff` | apps/lj-ingest/src/sitemap.rs:414-436 | the third lists a path if and only if it is a jurisdiction's page, where its collections begin, a collection's page, or a page from 1 to the last of one of its years |
| `SitemapListed.SegmentIs` | packages/lj-vocab/src/lib.rs:10-15 | a norm's segment is `eu` for the Union, else the code of its jurisdiction in small ASCII letters |
| `SitemapListed.DecimalReads` | apps/lj-ingest/src/sitemap.rs:530-565 | file and page numbers are written in decimal without a leading zero |
| `SitemapBuild.PrintUrlset` | apps/lj-ingest/src/sitemap.rs:189-198 | a file's body is its tags and texts, printed |
| `SitemapBuild.UrlsetRead` | apps/lj-ingest/src/sitemap.rs:345-363 | scanned back, a file gives its addresses escaped and its publishable dates, in order, and counts its entries |
| `SitemapBuild.Build` | apps/lj-ingest/src/sitemap.rs:390-507 | the seven sections' files, then the index of them |
| `SitemapListed.AddressesPublished` | apps/lj-ingest/src/sitemap.rs:390-507 | read back from the published files, the addresses are those the source owes, escaped, all of them, in order |
| `SitemapListed.DecisionPublished` | apps/lj-ingest/src/sitemap.rs:466-471 | each decision is among them, at its place |
| `SitemapListed.DatesPublished` | apps/lj-ingest/src/sitemap.rs:174-178 | read back, the dates are those of the source that lie between the epoch and the day of the run, in order |
| `SitemapListed.FilesNamedApart` | apps/lj-ingest/src/sitemap.rs:539-565 | no two published files have one name |
| `SitemapListed.FileDated` | apps/lj-ingest/src/sitemap.rs:529-547 | the date of a file is the latest of its entries' from the epoch to the day of the run, or that day where none has one |
| `SitemapListed.IndexDated` | apps/lj-ingest/src/sitemap.rs:473-505 | the date of the index is the latest of its files', or the epoch where there are none |
| `SitemapCheck.CheckLocs` | apps/lj-ingest/src/sitemap.rs:265-288 | counts every address into the shared table and reports each breach of its rules |
| `SitemapCheck.CheckIndex` | apps/lj-ingest/src/sitemap.rs:226-247 | reports a mismatch exactly when the names the index lists are not the names of the compressed files |
| `SitemapCheck.Validate` | apps/lj-ingest/src/sitemap.rs:215-329 | reports a problem if and only if it is true of the files: sizes, counts, origins, lengths, escaping, dates, repeated addresses, index |
| `SitemapRules.OffOriginSaid` | apps/lj-ingest/src/sitemap.rs:264-271 | an address is reported off the origin if and only if a compressed file lists it and it does not begin with the origin |
| `SitemapRules.LocTooLongSaid` | apps/lj-ingest/src/sitemap.rs:272-278 | too long if and only if listed and over 2048 octets |
| `SitemapRules.BadlyEscapedSaid` | apps/lj-ingest/src/sitemap.rs:279-281 | badly escaped if and only if listed and holding an angle bracket or an ampersand that begins none of five entities |
| `SitemapRules.TooLargeSaid` | apps/lj-ingest/src/sitemap.rs:248-255 | a file is reported too large if and only if it is over 50 MiB before compression |
| `SitemapRules.TooManyUrlsSaid` | apps/lj-ingest/src/sitemap.rs:256-262 | too full if and only if it holds `<url>` more than 50 000 times |
| `SitemapRules.OutsideWindowSaid` | apps/lj-ingest/src/sitemap.rs:284-290 | a date is reported if and only if a compressed file gives it and it is before the epoch or after the day of the run |
| `SitemapRules.NotADateSaid` | apps/lj-ingest/src/sitemap.rs:291-294 | a text is reported if and only if it stands for a date in a compressed file and is none |
| `SitemapRules.DuplicatedSaid` | apps/lj-ingest/src/sitemap.rs:299-313 | repeats are reported if and only if the compressed files list an address twice |
| `SitemapRules.IndexMismatchSaid` | apps/lj-ingest/src/sitemap.rs:227-246 | an index is reported if and only if it names a file not made, or not one that is |
| `SitemapAccepted.BodySized` | apps/lj-ingest/src/sitemap.rs:201-202 | the octets of a file, counted from its entries |
| `SitemapAccepted.EscapedWell` | apps/lj-ingest/src/sitemap.rs:366-372 | an escaped address has no bare ampersand and no angle bracket |
| `SitemapAccepted.RepeatsAre` | apps/lj-ingest/src/sitemap.rs:306-315 | the check sees a repeated address if and only if the source has one |
| `SitemapAccepted.PartSound` | apps/lj-ingest/src/sitemap.rs:249-304 | a file of few and short addresses that fits has no breach of any kind |
| `SitemapIndex.IndexRead` | apps/lj-ingest/src/sitemap.rs:473-491 | scanned back, the index gives the public address of every file, in order |
| `SitemapIndex.IndexDatesRead` | apps/lj-ingest/src/sitemap.rs:473-491 | and the date of every file, in the same order |
| `SitemapIndex.IndexAgreesWith` | apps/lj-ingest/src/sitemap.rs:226-247 | the names after the last slash of those addresses are the files' names, all and no other |
| `SitemapPublish.AcceptedIff` | apps/lj-ingest/src/sitemap.rs:201-329 | what is built passes the check if and only if the source's addresses are pairwise distinct, at most 2048 octets once escaped, and no file exceeds 50 MiB; no condition on the run date |
| `SitemapPublish.BuildSitemaps` | apps/lj-ingest/src/sitemap.rs:390-507 | publishes what was built under exactly that condition, and refuses otherwise |
| `Bisect.RangesOrdered` | apps/lj-ingest/src/main.rs:1870-1888 | the ranges are in order, apart, non-empty, inside the span, each with the count of its days, at most the chunk unless a single day |
| `Bisect.NothingLost` | apps/lj-ingest/src/main.rs:1870-1888 | their counts sum to the whole count, and a day in no range counts zero |
| `Bisect.SpanHalves` | apps/lj-ingest/src/main.rs:1851-1888 | each range is a half of a half of the span, and so on: its days are the span's divided by a power of two, rounded |
| `Bisect.CutOnlyIfTooFull` | apps/lj-ingest/src/main.rs:1870-1888 | a span that fits, or of one day, is one range; one that counts nothing is none; only one too full is cut |
| `Bisect.BisectRanges` | apps/lj-ingest/src/main.rs:1860-1889 | the explicit-stack loop ends and gives the halving, left half first |
| `Ics.IcsEscapeIs` | packages/lj-api/src/annonces.rs:992-999 | the five chained replacements are one pass over the characters |
| `Ics.UnescapeEscape` | packages/lj-api/src/annonces.rs:992-999 | unescaped, a value has lost its carriage returns and nothing else (section 3.3.11 of RFC 5545) |
| `Ics.CutBefore` | packages/lj-api/src/annonces.rs:976-979 | the backward search finds the last character boundary within the width, at most three octets back, so every cut advances |
| `Ics.FoldLine` | packages/lj-api/src/annonces.rs:973-988 | the loop gives the pieces of widths 75 then 74, each after the first on a line that a space begins |
| `Ics.IcsLine` | packages/lj-api/src/annonces.rs:970-989 | a property line escaped and folded; its logical line is UTF-8 |
| `Ics.PhysicalShort` | packages/lj-api/src/annonces.rs:967-989 | every physical line a reader finds is whole characters, 75 octets at most (section 3.1 of RFC 5545) |
| `Ics.PhysicalFull` | packages/lj-api/src/annonces.rs:973-988 | every physical line but the last has 72 octets at least |
| `Ics.RoundTrip` | packages/lj-api/src/annonces.rs:970-999 | unfolding gives back the logical line, and unescaping what follows the colon the value without its carriage returns |
| `Reading.Best` | apps/lj-htr/src/read.rs:74-77 | the first of the largest probabilities of a frame |
| `Reading.Decode` | apps/lj-htr/src/read.rs:71-93 | the glyphs are the maximal runs of one non-blank class, all of them, in order, each with the probability of its first frame; their symbols are the frames' classes with repeats made one and blanks then dropped |
| `Reading.SplitKeeps` | apps/lj-htr/src/read.rs:124-130 | splitting at spaces gives one piece more than there are spaces, none with a space in it, and the pieces with the spaces put back between them are the text; put end to end they are all that is not a space |
| `Reading.Words` | apps/lj-htr/src/read.rs:104-132 | the flushed runs are exactly the non-empty pieces between spaces, each a word placed where its glyphs fired |
| `Reading.TextKept` | apps/lj-htr/src/read.rs:104-132 | the words spell the glyphs that are not spaces, all of them, in order, each on its segment's line and at its height |
| `Reading.OneFrameMore` | apps/lj-htr/src/read.rs:102-113 | a word takes exactly one frame more each side than it fires on, unless the first frame or the seen width clips it, and always covers the frames it fires on |
| `Reading.WordsPlaced` | apps/lj-htr/src/read.rs:109-123 | every word's box is within its segment and of non-negative width, and left and right edges go left to right |
| `Accounts.UnlinkLeavesAccess` | packages/lj-api/src/account.rs:139-163 | an unlinking that deletes anything deletes that identity alone and leaves a password or another identity |
| `Accounts.UnlinkRefuses` | packages/lj-api/src/account.rs:148-160 | it deletes nothing exactly when the identity is not the account's or is its last means of access |
| `Accounts.AdoptSaid` | packages/lj-api/src/oidc_auth.rs:516-537 | an identity that joins the account of its verified address confirms that address, and the password stays if and only if the address was confirmed before; nothing else changes |
| `Accounts.DeleteSaid` | packages/lj-api/src/me.rs:53-66 | a deletion leaves nothing of the account, its tokens and identities, and all of the others |
| `Accounts.Store.SpendToken` | packages/lj-api/src/accounts.rs:557-580 | spends a token if and only if it is there, of that purpose, unused and expires after now, and gives its bearer and address; otherwise changes nothing |
| `Accounts.Store.PlaceToken` | packages/lj-api/src/accounts.rs:526-548 | places one fresh token that expires 60 minutes after now, for an account that exists |
| `Accounts.Store.EmailChangeRequest` | packages/lj-api/src/account.rs:174-206 | places a first token for the address asked, unless it is invalid, absent or the address of now up to ASCII case; nothing else changes |
| `Accounts.Store.EmailChange` | packages/lj-api/src/accounts.rs:436-485 | a first token earns a second for the same account and address; a second writes that address to that account alone, unless another has it; the link is dead, and changes nothing, if and only if no such token is there, unused and unexpired |
| `Accounts.Store.UnlinkIdentity` | packages/lj-api/src/account.rs:141-165 | deletes the identity unless it is the last means of access |
| `AccountRuns.StepKeeps` | packages/lj-api/src/accounts.rs:526-580 | every statement of every handler keeps tokens, handlers under way, folded addresses and owners consistent with what has happened |
| `AccountRuns.SpentOnce` | packages/lj-api/src/accounts.rs:551-580 | in every interleaving no token is spent twice |
| `AccountRuns.SpentInTime` | packages/lj-api/src/accounts.rs:565-568 | nor one that has expired |
| `AccountRuns.AddressesStayUnique` | packages/lj-api/src/accounts.rs:467-481 | in every interleaving no two accounts come to share a case-folded address |
| `AccountRuns.AddressChangeEarned` | packages/lj-api/src/accounts.rs:430-485 | in every interleaving an account's address changes only by a handler that spent a second token, issued for a spent first token, itself issued on request, each before it expired, all for this account and this new address |
| `AccountRuns.ChangesPaidApart` | packages/lj-api/src/accounts.rs:430-485 | two address changes share neither their second nor their first token |
| `AccountRuns.AccessKept` | packages/lj-api/src/account.rs:139-165 | an account with a password or an identity keeps one until it is deleted, in every run in which no two of its identities are being unlinked at once |
| `AccountRuns.AccessKeptIff` | packages/lj-api/src/account.rs:148-157 | with at most `n` of its identities being unlinked at a time, in every run, if and only if `n` is one at most |
| `AccountRuns.OverlapShutsOut` | packages/lj-api/src/account.rs:148-157 | two overlapping unlinkings of the two identities of an account without a password delete both |
| `AccountRuns.UnlinkIsSteps` | packages/lj-api/src/account.rs:141-165 | run alone, the unlinking handler is its two steps, the guard read and the row deleted |
| `AccountRuns.HandlerIsSteps` | packages/lj-api/src/accounts.rs:436-485 | run alone, the address-change handler is its steps |
| `Weights.AxisCoordinate` | apps/lj-htr/src/model.rs:94-103 | `(i / inner) % channels` is the coordinate along the axis of row-major index `i`, for every shape and axis |
| `Weights.OffsetOfCoordinates` | apps/lj-htr/src/model.rs:94-103 | every index is the place of its coordinates |
| `Weights.HalfScale` | apps/lj-htr/models.py:57-65 | over the reals a weight stored and read back is within half its channel's scale, its int8 within 127, and zero on an all-zero channel |
| `Networks.Quarter` | apps/lj-htr/models.py:49-79 | replaces each big weight by three tensors and a node, in order; fails exactly when a big weight has more than four dimensions |
| `Networks.Dequantise` | apps/lj-htr/src/model.rs:64-120 | removing folded nodes from the last leaves the other nodes in order, and folds their initializers away |
| `WeightRoundTrip.WeightNear` | apps/lj-htr/src/model.rs:96-104 | each weight of a tensor written and read back is within half its channel's scale of itself, and zero if its channel is |
| `WeightRoundTrip.WeightOff` | apps/lj-htr/models.py:56-63 | by no more than a 254th of the greatest weight of its output channel: of the same first coordinate in four dimensions, of the same second in two or three |
| `WeightRoundTrip.StoredSays` | apps/lj-htr/models.py:49-79 | a tensor of 4096 floats or more in two dimensions or more is stored as octets within 127, a scale and a zero an output channel, under its name with `_q`, `_s` and `_z`, and a node computes it again from them; any other is kept |
| `WeightRoundTrip.WideSays` | apps/lj-htr/src/model.rs:64-113 | a dequantising node computes each octet less the zero of its channel, times the scale of its channel, along the axis it gives, or the second |
| `WeightRoundTrip.NodesBack` | apps/lj-htr/src/model.rs:64-120 | written and read back, a graph has the nodes it has when read as it is, in order: all of them where none dequantises |
| `WeightRoundTrip.TensorsBack` | apps/lj-htr/src/model.rs:64-120 | and the tensors it has then, but that its big ones are taken out and put back restored, last and under their own names |
| `WeightRoundTrip.ReadAlone` | apps/lj-htr/src/model.rs:105-120 | what the reader makes of a graph as it is, where no node it folds computes what an earlier one reads: the inputs of those nodes taken out, what they compute put in |
| `WeightRoundTrip.WriteAndRead` | apps/lj-htr/models.py:49-79 | the writer then the reader, as one |
| `WeightCollisions.ReadsBackIff` | apps/lj-htr/models.py:66-75 | a graph of tensors of different names reads back, nodes in order, small tensors as they are when it is read as it is, big ones restored, if and only if each name the writer gives is no tensor's or that of a big one that comes before |
| `WeightCollisions.CollisionLoses` | apps/lj-htr/models.py:66-75 | for every big weight and small tensor that bears its stored name, they are not had again |

## Left out

- Garanties.StabiliteSsi: asks that the digest give no two channels of the batch one uid. Where two groups strike one uid and one of them keeps it, the second run may give the same lines though the group lost it; that stability follows when every group holds needs no such condition (`Garanties.StabiliteDesRuns`).
- Annonces.FusionnerAboutit: of the fields a line is folded from, the model keeps the title, address, reference, publication date and sources; zones, codes, contents, descriptors and identifiers are copied or united field by field and decide nothing.
- Networks.Quarter: the size test reads the values' number; opset versions and the fp16 widening of other tensors are not modelled.
- WeightRoundTrip.WeightNear: over the reals, so the rounding of fp32 division and multiplication is not in the bound.
- WeightRoundTrip.ReadAlone: what is left of a graph where a dequantising node computes what one before it reads is not stated; the writer makes none, and ONNX asks that a node come after those that compute what it reads.
- WeightRoundTrip.NodesBack: of the graph's own dequantising nodes, asks that none computes what one before it reads, and that none reads a big tensor, nor reads or computes a name the writer gives one; what is left of other graphs is not stated.
- WeightRoundTrip.TensorsBack: asks the same.
- WeightRoundTrip.WriteAndRead: asks the same.
- WeightCollisions.ReadsBackIff: asks the same.
- WeightCollisions.CollisionLoses: asks the same.
- SitemapCheck.Validate: the wording of the messages, the number of examples shown and the counts of repeats are not modelled, only which problems are reported.
- SitemapBuild.Build: an entity of an unknown namespace is a precondition, where the source panics.
- Compression: a compressed body is the body, so failures to compress or decompress are not modelled.
- Reading.Words: class numbers outside the alphabet and a zero seen width are preconditions, where the source panics or divides by zero; parsing of the alphabets is not modelled.
- AccountRuns.StepKeeps: each other SQL statement is one step, as row locks and the unique index on folded addresses make it; what else two statements running at once could see of each other is not modelled. Sessions, passwords' strength and hashing, mail sending and locale are left out.
- Accounts.Store.EmailChangeRequest: the trimming, lowercasing and plausibility of an address are one uninterpreted function.
- Waiting times, back-off and the number of drivers a door is given; the queue results hold for any number.
- Liveness against busy answers: they can repeat for ever, so runs are bounded only up to their number.
- The store's own deduplication and the orphan sweep after reconciliation.
- Network planning, image resampling, confidence thresholds and lexicon scores: measured choices without a simple specification.
- Title recasing and elision repair: text heuristics over Unicode case tables.
- The redaction bindings, the watchdog sums and the fixed tables: thin or finite.
