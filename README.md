# Beach and clan bookkeeping of the ocean simulation

This project models, in Dafny, the two in-memory bookkeeping components of the
ocean simulation's `ocean` crate:

- `ClanSystem` (module `Clans`, `clans.dfy`): a map from clan id to the ordered
  list of member names. Members are appended; lookups of an unknown id give an
  empty list or 0; `get_largest_clan_id` scans the map in hash order, and any tie
  at the running maximum erases the answer.
- `Beach` (module `Beaches`, `beach.dfy`): an ordered collection of crabs, a
  `size` counter kept equal to its length, and one owned `ClanSystem`. Crabs are
  appended, fetched by index, scanned for the fastest one, filtered by name and
  bred. The beach guards clan membership so that a name is in at most one clan.
  It also runs clan competitions on the floor of the members' mean speed.

A crab is the value `Crab(name, speed)` (module `Crabs`, `crab.dfy`); names are
not unique. Rust's `Option` and `Result` are the datatypes of `wrappers.dfy`.

Both source types mutate in place, so both are classes. `ClanSystem` has the
field `clans: map<string, seq<string>>`. `Beach` has `size`, `crabCollection:
seq<Crab>` and the `const` reference `clanSystem`. The loops of the source are
`while`/`for` loops with invariants. Each method is proved against a
specification function, and lemmas state the properties of those functions:

- `CrabsNamed` is the filter behind `find_crabs_by_name`.
- `SpeedSum`, `AverageSpeed` and `Winner` specify `get_winner_clan`.
- `WithMember` is the map update of `add_clan_member`.
- `Admit` is the guarded update of `add_member_to_clan`.
- `IsLargest` and `IsFirstFastest` characterise the two scans.

`HashMap` iteration order is unspecified. `GetLargestClanId` therefore picks the
next unvisited key with `:|`, an arbitrary choice. Its postcondition still fixes
the answer from the map alone, and `LargestIsUnique` shows that at most one clan
qualifies. So the result does not depend on the visiting order.

Where the code and its doc comments differ, the model follows the code.
`get_fastest_crab` starts its running maximum at 0 and replaces it only on a
strictly greater speed. Its doc comment (ocean/src/beach.rs:51-55) promises
`None` only for an empty beach and a crab otherwise. The code instead returns
`None` whenever every crab has speed 0, a non-empty beach included.
`GetFastestCrab` states exactly that.

## Model

| member | source | states |
|---|---|---|
| Clans.ClanSystem.constructor | ocean/src/clans.rs:11-15 | a new clan system has no clans and satisfies the every-clan-non-empty invariant |
| Clans.ClanSystem.AddClanMember | ocean/src/clans.rs:17-20 | the id's list becomes its old list (or the empty list for a new id) with the name appended; every other clan's list is unchanged; the clan count grows by one exactly when the id was new; no clan is left empty |
| Clans.ClanSystem.GetClanMemberNames | ocean/src/clans.rs:25-34 | never fails; the stored list for a known id, the empty list for an unknown id; every name returned belongs to some clan |
| Clans.ClanSystem.GetClanCount | ocean/src/clans.rs:40-42 | the number of distinct clan ids, 0 exactly when there is no clan |
| Clans.ClanSystem.GetClanMemberCount | ocean/src/clans.rs:47-56 | equals the length of GetClanMemberNames for the same id, 0 for an unknown id; under the invariant it is positive exactly for known ids |
| Clans.ClanSystem.GetLargestClanId | ocean/src/clans.rs:61-74 | for any visiting order of the keys: Some(id) only when id has at least one member and strictly more members than every other clan; None exactly when no clan is like that (no clans, a shared maximum, or only empty clans) |
| Clans.LargestIsUnique | ocean/src/clans.rs:61-74 | at most one clan is strictly largest, so the scan's answer is a function of the map alone |
| Clans.WithMemberLookup | ocean/src/clans.rs:17-20 | after the update the id is a key, its list is the old or empty list plus the name, other keys and lists are unchanged |
| Clans.WithMemberCount | ocean/src/clans.rs:17-20 | the number of clans grows by one exactly when the id was absent, otherwise it stays the same |
| Clans.WithMemberNonEmpty | ocean/src/clans.rs:17-20 | appending a member keeps every clan non-empty, so every clan created this way has a member |
| Clans.WithFreshMemberAtMostOneClan | ocean/src/clans.rs:17-20 | appending a name that is in no clan keeps every name in at most one position of one clan |
| Beaches.Beach.constructor | ocean/src/beach.rs:16-22 | a new beach has no crabs, a counter of 0 and a fresh, empty clan system |
| Beaches.Beach.Size | ocean/src/beach.rs:27-29 | the counter equals the number of crabs held |
| Beaches.Beach.AddCrab | ocean/src/beach.rs:38-41 | the crab becomes the last element, earlier crabs are unchanged (GetCrab(k) keeps its value), the counter grows by one and still equals the length |
| Beaches.Beach.GetCrab | ocean/src/beach.rs:43-45 | an index within the collection is required (past the end is a fault); the crab returned is the one at that index |
| Beaches.Beach.Crabs | ocean/src/beach.rs:47-49 | iteration yields every crab in collection order: the k-th crab seen is GetCrab(k) |
| Beaches.Beach.GetFastestCrab | ocean/src/beach.rs:56-66 | None exactly when every crab has speed 0 (the empty beach included); otherwise the crab at the returned position, whose speed is at least every crab's speed and strictly above every earlier crab's, i.e. the earliest fastest crab |
| Beaches.Beach.FindCrabsByName | ocean/src/beach.rs:72-80 | the result is CrabsNamed of the collection: all crabs with exactly that name, in collection order |
| Beaches.CrabsNamedMembers | ocean/src/beach.rs:72-80 | a crab is returned exactly when it is on the beach and carries the name |
| Beaches.CrabsNamedEmpty | ocean/src/beach.rs:72-80 | the result is empty exactly when no crab carries the name |
| Beaches.CrabsNamedAppend | ocean/src/beach.rs:72-80 | the filter of a concatenation is the concatenation of the filters, so matches keep their relative order |
| Beaches.Beach.BreedCrabs | ocean/src/beach.rs:87-95 | both indices must be within the collection (otherwise the source panics), i == j allowed; the offspring of the crabs at i and j is appended, earlier crabs unchanged, counter up by exactly one |
| Beaches.Beach.GetClanSystem | ocean/src/beach.rs:100-102 | the clan index handed out is the beach's own, with every clan non-empty and every name in at most one clan |
| Beaches.Beach.AddMemberToClan | ocean/src/beach.rs:108-114 | no change when the name is already in any clan, otherwise the name is appended to the given clan's list; the at-most-one-clan invariant is preserved |
| Beaches.AdmitKeepsAtMostOneClan | ocean/src/beach.rs:108-114 | the guarded update preserves "each name occurs at most once across all clan lists" |
| Beaches.AdmitOnlyOnce | ocean/src/beach.rs:108-114 | once a name is admitted to a clan it is a member, and a later request to put it into any clan (another or the same) changes nothing |
| Beaches.Beach.SumMemberSpeeds | ocean/src/beach.rs:125-128 | the loop's accumulator ends as the sum, over the member names in order, of the speed of the first crab with that name |
| Beaches.FirstNamedIsEarliest | ocean/src/beach.rs:126 | the crab a member's speed is read from is the lowest-index crab carrying that name |
| Beaches.Beach.GetWinnerClan | ocean/src/beach.rs:120-158 | requires id1's names to resolve, and id2's only when id1 has members; Err naming id1 when id1 has no members (checked first), else Err naming id2 when id2 has none, else the id with the strictly greater floor average, None on a tie |
| Beaches.WinnerIsSymmetric | ocean/src/beach.rs:151-157 | between two valid clans, swapping the arguments gives the same outcome |
| Beaches.WinnerAgainstItselfTies | ocean/src/beach.rs:151-157 | a valid clan competing against itself is a tie (Ok(None)) |
| Beaches.SpeedSumAtMost | ocean/src/beach.rs:125-128 | the summed speed of n members is at most n times any bound on the crabs' speeds |
| Beaches.AverageSpeedAtMost | ocean/src/beach.rs:129-137 | a clan's floor-average speed never exceeds a bound on the speed of every crab on the beach |

## Left out

- `ocean/src/ocean.rs` is not part of this model. `Ocean` is a list of beaches and a list of reference-counted, mutably shared reef handles. `generate_reef` fills a `Reef` with minnows, shrimp, clams and algae, whose definitions are not part of this model either. The rest is reference-counting plumbing.
- The crab's own fields (`Color`, `Diet`) and its breeding logic are not part of this model. `Breeder` is a function parameter of `BreedCrabs`. Nothing is therefore assumed about the offspring, including its name.
- Beaches.Beach.SumMemberSpeeds: speeds and sums are unbounded `nat`s. The source accumulates in `u32` and would overflow on very large sums; `size` is a `usize` counter with the same caveat.
- Beaches.Beach.GetWinnerClan: the error is one of two tags (`Id1DoesNotExist`, `Id2DoesNotExist`) instead of the source's message strings.
- References become values. `get_crab`, `get_fastest_crab` and `find_crabs_by_name` return crab values, so two equal crabs cannot be told apart. `GetFastestCrab` also returns a ghost index: the position of the crab the source's reference points to.
- `crabs()` returns a slice iterator in the source. `Crabs` returns the sequence itself, which also stands for the iterator being restartable and live.
- Moves and ownership are left out: `add_crab` taking ownership, and crab records not being copyable.
- `ClanSystem.clans` is a public field in the source. The model assumes only the beach's own methods change it, which is what the at-most-one-clan invariant relies on.
- Rust panics are preconditions: on indices in `GetCrab` and `BreedCrabs`, and on member names that match no crab in `GetWinnerClan`. The model states when a call is safe; it does not model the panic itself.
- `Debug` derives.
