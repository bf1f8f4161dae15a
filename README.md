# Event record model

A verified model of the `Event` database model of the CocoaHub server: the
record of a scheduled, located event, with its identity `id` and ten data
fields (`name`, `logo`, `tags`, `url`, `country`, `city`, `coordinates`,
`startDate`, `endDate`, `isActive`). The model covers what the record itself
does before the ORM writes it:

- `init` builds an unsaved event (no `id`) from the ten fields;
- the ORM hooks `willCreate` and `willUpdate` replace `tags` by its sorted
  copy, so tags are stored in canonical ascending order;
- `validations()` registers two rules: `url` must be a URL, and no tag may be
  outside the allow-list for the event category, otherwise the rule throws
  an internal-server-error abort with reason "Contains invalid tags";
- `update(with:)` overwrites all ten data fields of the receiver with those
  of another event, keeps the receiver's `id`, and returns the receiver.

Files:

- `wrappers.dfy` — `Option`, Swift's optional values.
- `string_order.dfy` — module `StringOrder`: Swift's `<` on `String` as the
  lexicographic order on `seq<char>` (proved a strict total order), and
  `sorted()` as an insertion sort, proved to give an ascending permutation of
  its input that is unique, independent of input order, and the identity on
  sorted input.
- `event.dfy` — module `EventModel`: class `Event` with mutable fields, its
  constructor, the hooks `WillCreate`/`WillUpdate`, the merge `Update`, and
  `EventData`, the ten data fields as a value, with `Normalized`, the data as
  the hooks leave it.
- `event_validation.dfy` — module `EventValidation`: the registered rules as an
  ordered list, a function that runs them and collects failures, and
  `Validate`, whose contract states when an event passes and which failure
  each violated rule reports.

The URL predicate and the tag allow-list are not part of this model: they
are the parameters `isUrl: string -> bool` and `eventTags: set<string>`.

## Model

| member | source | states |
|---|---|---|
| StringOrder.LessIrreflexive | Sources/App/Models/Database/Event.swift:58 | no tag is less than itself under the string order `sorted()` uses |
| StringOrder.LessTransitive | Sources/App/Models/Database/Event.swift:58 | the string order is transitive |
| StringOrder.LessTotal | Sources/App/Models/Database/Event.swift:58 | any two different tags are ordered one way or the other |
| StringOrder.LessIffFirstDifference | Sources/App/Models/Database/Event.swift:58 | `a` is less than `b` exactly when, after their longest common prefix, `a` has ended while `b` goes on, or `a`'s next character is the smaller one (both directions) |
| StringOrder.Insert | Sources/App/Models/Database/Event.swift:58 | inserting a tag into a sorted list keeps it sorted and adds exactly that tag |
| StringOrder.Sort | Sources/App/Models/Database/Event.swift:58 | `sorted()` returns an ascending arrangement (no later tag less than an earlier one) with the same multiset of tags and the same length |
| StringOrder.SortedUnique | Sources/App/Models/Database/Event.swift:58 | two ascending arrangements of the same multiset of tags are equal |
| StringOrder.SortIdempotent | Sources/App/Models/Database/Event.swift:62-63 | sorting tags that are already sorted leaves them unchanged |
| StringOrder.SortCanonical | Sources/App/Models/Database/Event.swift:57-58 | the sorted tags depend only on the multiset submitted, not on the order of submission |
| EventModel.Normalized | Sources/App/Models/Database/Event.swift:57-65 | the data the hooks leave has sorted tags with the same multiset and length as before, and every other field unchanged |
| EventModel.NormalizedIdempotent | Sources/App/Models/Database/Event.swift:57-65 | running the hooks' normalisation on already normalised data changes nothing |
| EventModel.NormalizedIgnoresTagOrder | Sources/App/Models/Database/Event.swift:57-65 | two events that differ only in the order of their tags are stored identically |
| EventModel.Event.constructor | Sources/App/Models/Database/Event.swift:29-51 | each of the ten data fields equals its argument and `id` is absent |
| EventModel.Event.WillCreate | Sources/App/Models/Database/Event.swift:57-60 | `tags` becomes the sorted permutation of the old tags (unchanged if already sorted); `id` and every other field keep their values; the hook yields the event itself |
| EventModel.Event.WillUpdate | Sources/App/Models/Database/Event.swift:62-65 | the same normalisation as `WillCreate`, with the same guarantees |
| EventModel.Event.Update | Sources/App/Models/Database/Event.swift:106-119 | the receiver's ten data fields equal the argument's old ones, its `id` is unchanged, the argument is not modified, and the receiver itself is returned |
| EventValidation.Check | Sources/App/Models/Database/Event.swift:92-96 | the URL rule accepts exactly when `url` satisfies the URL predicate and otherwise reports the URL failure; the tag rule accepts exactly when every tag is in the event allow-list and otherwise throws the abort with status 500 and reason "Contains invalid tags" |
| EventValidation.Run | Sources/App/Models/Database/Event.swift:91-97 | the failures collected are exactly those some registered rule reports, no more failures than rules, and a single rule contributes its failure or nothing |
| EventValidation.RunConcat | Sources/App/Models/Database/Event.swift:91-97 | rules run left to right: running two lists one after the other gives the first list's failures followed by the second's, so each failing rule contributes exactly one failure, in registration order |
| EventValidation.Validate | Sources/App/Models/Database/Event.swift:90-99 | an event passes iff `url` satisfies the URL predicate and every tag is in the event allow-list; on failure, the failures are exactly the URL failure if the URL is bad, followed by the abort with status 500 and reason "Contains invalid tags" if some tag is outside the allow-list |
| EventValidation.ValidateNormalized | Sources/App/Models/Database/Event.swift:57-99 | sorting the tags does not change the validation outcome, so validating before or after the hooks agrees |

## Left out

- `Sources/App/Controllers/NewsController.swift` is not part of this model: it registers HTTP routes, gates writes behind a shared-secret middleware and calls ORM `save`/`create`/`delete`; the `New` type it uses is not shown.
- The hooks' `EventLoopFuture` wrapping (`Future.map(on:)`) is asynchronous framework machinery; the hooks are plain methods that return the event.
- Pagination (`Paginatable`, `defaultPageSorts`) is done by an external library. The default page order is ascending `startDate`; it is only noted here, and no member of the model uses the order of `Date` (an `int`).
- The `Content`, `Migration` and `Parameter` conformances are serialisation, schema and routing code generated by the framework.
- The framework's `.url` validator and the `Tags` allow-list lookup are not shown; they are the parameters `isUrl` and `eventTags`.
- Validate: does not model how the framework reduces several failures to the one error the caller sees (the tag rule throws an `Abort`, the URL rule a validation error); the model reports every failing rule in registration order.
- StringOrder.Sort: models Swift's `String` comparison as lexicographic order on Unicode scalars, without Swift's canonical-equivalence normalisation; two strings that Swift treats as equal but that differ in their scalars are ordered here.
- The database assigning `id` on first save is ORM behaviour and is not modelled.
- `Coordinates` is not shown; it is modelled as a latitude/longitude pair of reals held as an optional value, and nothing in the model depends on its contents.
