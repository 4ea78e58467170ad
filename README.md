# Khel-Saarthi event lifecycle, in Dafny

This project models the server-side event handlers of Khel-Saarthi, an app where hosts publish local sports events and other users find them, register and chat. It also models two small client helpers. It proves properties about each of them.

- **Event handlers** (`backend/controllers/eventController.js`):
  - `EventQueries` holds the read-only handlers as pure functions over the stored events: the filtered listing, the lookup by id and the host-only participant list.
  - `EventController.EventStore` is a class over the event collection. Its methods `CreateEvent`, `UpdateEvent` and `RegisterForEvent` change the stored events in place. Its invariant `Valid()` says four things:
    - ids are unique;
    - every id is below the counter the next created event takes;
    - no one is registered twice;
    - a host is never registered for their own event.
  - `EventModel` holds the event record, the errors with their HTTP statuses and messages, the access rules (`CanCreateEvent`, `IsOwner`) and the pure parts of an update.
  - `ChatHistory` holds `getChatHistory`: it selects one event's messages and sorts them by creation time.
- **Category tables** (`frontend/utils/constants.js`): `SportsConstants` holds the image, icon and color tables and their lookup-with-fallback helpers.
- **Initials** (`frontend/components/ProfileCard.js`): `ProfileCard` holds `getInitials` with the JavaScript `split`, `map`, `join`, `toUpperCase` and `slice` chain written out. It is proved equal to a separate definition of "characters that start a word".

Modelling choices:

- Identifiers are natural numbers and are compared by equality. That is how the source compares ObjectIds once it has turned them into strings.
- A created event gets the store's next counter value as its id.
- Dates are integer timestamps, and a location is an integer longitude/latitude pair.
- In a listing query, a string parameter equal to `""` counts as not supplied, because an empty string is falsy in JavaScript.
- `maxFee`, `startDate` and `endDate` hold their already-parsed values.
- A `maxFee` of `"0"` is a non-empty string, so it is truthy and filters (`Some(0)`).
- The `search` filter is an ASCII case-insensitive substring test.
- In an update body, `None` means a field that was left out.
  - A string field replaces the stored value only when it is non-empty.
  - A present date or location replaces the stored value.
  - A present `entryFee` replaces the stored value, even when it is `0`.
- Chat history uses a stable sort: messages with equal timestamps stay in store order.
- The handlers' contracts state the HTTP status of every error through `Error.Status()`. `Error.Message()` records the response texts of the code, and no contract refers to it.

Two behaviours of the code are easy to miss, and the model keeps both:

- Both refusals of a registration answer with status 400 (`eventController.js`, lines 68 and 72). Only the message tells a host registering for their own event apart from a repeated registration.
- An update assigns each string field with `||` (lines 53-58). An empty string in the body is falsy, so it keeps the stored value instead of clearing it.

## Model

| member | source | states |
|---|---|---|
| `EventModel.FindIndex` | backend/controllers/eventController.js:44 | `findById`: when a position is found, it holds that id and no earlier position does; the result is `None` exactly when no event has the id |
| `EventModel.FindIndexUnique` | backend/controllers/eventController.js:65 | when ids are unique, the lookup finds exactly the position that holds the id |
| `EventModel.ApplyUpdate` | backend/controllers/eventController.js:53-59 | the partial overwrite never changes the id, the host or the participant list |
| `EventModel.UpdateOnlyTitle` | backend/controllers/eventController.js:53 | an update that supplies only a title changes the title and leaves every other field as it was |
| `EventModel.UpdateZeroFee` | backend/controllers/eventController.js:59 | a supplied fee of 0 sets the fee to 0 and changes nothing else |
| `EventModel.UpdateWithFalsyFieldsKeepsEvent` | backend/controllers/eventController.js:53-58 | any update body whose string fields are all absent or empty, and whose date, location and fee are absent, leaves the event unchanged |
| `EventModel.UpdateIdempotent` | backend/controllers/eventController.js:53-59 | applying the same update twice gives the same event as applying it once |
| `EventModel.UpdateKeepsParticipantsValid` | backend/controllers/eventController.js:53-60 | an update keeps "no duplicates, host not registered" |
| `EventModel.AddParticipantKeepsParticipantsValid` | backend/controllers/eventController.js:66-75 | appending a caller who is neither the host nor already registered keeps the invariant, and the old participants stay in order at the front |
| `EventQueries.ContainsIffOccurs` | backend/controllers/eventController.js:11 | the substring scan succeeds exactly when the pattern occurs at some offset of the text |
| `EventQueries.GetAllEvents` | backend/controllers/eventController.js:5-18 | an event is listed exactly when it is stored and meets every supplied filter; the result is no longer than the store |
| `EventQueries.GetAllEventsKeepsOrder` | backend/controllers/eventController.js:17 | listing a concatenation of two stores gives the listing of the first followed by the listing of the second, so store order is kept |
| `EventQueries.GetAllEventsWithoutQuery` | backend/controllers/eventController.js:7 | with no parameters, every event is listed in store order |
| `EventQueries.GetAllEventsUnmatched` | backend/controllers/eventController.js:17-18 | a filter that no event meets gives the empty list, not an error |
| `EventQueries.BoundsAreInclusive` | backend/controllers/eventController.js:10-16 | an event whose fee equals `maxFee` and whose date equals both date bounds is listed |
| `EventQueries.DateBoundsAreIndependent` | backend/controllers/eventController.js:12-16 | a start date alone means `start <= date`; an end date alone means `date <= end` |
| `EventQueries.LowerOfUpper` | backend/controllers/eventController.js:11 | lower-casing an upper-cased string gives the same result as lower-casing the original |
| `EventQueries.SearchIgnoresCase` | backend/controllers/eventController.js:11 | upper-casing the search text matches exactly the same titles |
| `EventQueries.TitleMatchesItself` | backend/controllers/eventController.js:11 | searching for a title, upper-cased, matches that title |
| `EventQueries.GetEventById` | backend/controllers/eventController.js:21-29 | the lookup succeeds exactly when some event has the id, and then returns a stored event with that id; otherwise it fails with NotFound and status 404 |
| `EventQueries.GetEventParticipants` | backend/controllers/eventController.js:84-95 | it fails with NotFound exactly when no event has the id; on success it returns that event's participant list and the caller is the host; any other error is the Forbidden one (status 403), for a caller who is not the host; NotFound carries status 404 |
| `EventQueries.HostSeesParticipants` | backend/controllers/eventController.js:94 | when ids are unique, the host gets the stored participant list, in registration order |
| `EventQueries.OthersCannotSeeParticipants` | backend/controllers/eventController.js:90-93 | when ids are unique, anyone other than the host gets the Forbidden error |
| `EventController.EventStore.CreateEvent` | backend/controllers/eventController.js:31-40 | a caller whose role is not "host" gets 403 and nothing is stored; otherwise one event is appended with a fresh id, the caller as host, the supplied fields and no participants; the invariant is kept |
| `EventController.EventStore.UpdateEvent` | backend/controllers/eventController.js:42-62 | an unknown id gives 404, then a caller who is not the host gets 403, both with no change; otherwise only that event is replaced by `ApplyUpdate` of itself; the invariant is kept |
| `EventController.EventStore.RegisterForEvent` | backend/controllers/eventController.js:64-82 | an unknown id gives 404; the host gets 400, checked first; a caller already registered gets 400; each error leaves the store unchanged; otherwise the caller is appended to the end of that event's participant list and nothing else changes; the invariant is kept |
| `ChatHistory.MessagesOf` | backend/controllers/eventController.js:98 | a message is selected exactly when it is stored and belongs to the event |
| `ChatHistory.MessagesOfConcat` | backend/controllers/eventController.js:98 | selecting from two concatenated collections gives the selection from the first followed by the selection from the second, so each stored message is selected once per occurrence, in store order |
| `ChatHistory.Insert` | backend/controllers/eventController.js:98 | inserting adds exactly one occurrence of the message, as a multiset |
| `ChatHistory.InsertKeepsSorted` | backend/controllers/eventController.js:98 | inserting into a list ordered by `createdAt` keeps it ordered |
| `ChatHistory.SortByCreatedAt` | backend/controllers/eventController.js:98 | the sort returns a permutation of its input, ordered by non-decreasing `createdAt` |
| `ChatHistory.GetChatHistory` | backend/controllers/eventController.js:97-100 | the history is ordered by non-decreasing `createdAt`, is a permutation of the event's messages, and holds exactly the stored messages of that event |
| `ChatHistory.NoMessagesOf` | backend/controllers/eventController.js:98 | when no stored message belongs to the event, nothing is selected |
| `ChatHistory.UnknownEventHasNoHistory` | backend/controllers/eventController.js:97-99 | no existence check is made: an unknown event, or any event without messages, gets an empty list |
| `ChatHistory.SortKeepsOrderedInput` | backend/controllers/eventController.js:98 | messages already in `createdAt` order come back unchanged |
| `ChatHistory.NewestMessageComesLast` | backend/controllers/eventController.js:97-99 | after a message newer than every stored one is added, fetching again gives the old history with that message at the end |
| `Ascii.ToUpper` | frontend/components/ProfileCard.js:11 | a lower-case ASCII letter becomes its own capital (code point minus 32); every other character is unchanged |
| `Ascii.ToLower` | backend/controllers/eventController.js:11 | an upper-case ASCII letter becomes its own small letter (code point plus 32); every other character is unchanged |
| `Ascii.Upper` | frontend/components/ProfileCard.js:11 | `toUpperCase` keeps the length and maps each character |
| `Ascii.Lower` | backend/controllers/eventController.js:11 | lower-casing keeps the length and maps each character |
| `SportsConstants.GetSportImage` | frontend/utils/constants.js:54-57 | the result is the category's image URL, or the default image for an unlisted category, then "?", then the size, which defaults to "w=600" |
| `SportsConstants.GetCategoryIcon` | frontend/utils/constants.js:59 | a listed category gets its table icon; any other input gets "ellipse" |
| `SportsConstants.GetCategoryColor` | frontend/utils/constants.js:61 | a listed category gets its table color; any other input gets the primary theme color "#007AFF" |
| `SportsConstants.UnlistedSportsGetDefaultImage` | frontend/utils/constants.js:2-12 | "All", "Other" and unknown categories get the default image |
| `SportsConstants.ImageCategories` | frontend/utils/constants.js:2-24 | the image table lists exactly the icon table's categories except "All" and "Other" |
| `SportsConstants.IconAndColorTablesAgree` | frontend/utils/constants.js:14-36 | the icon and color tables have the same keys, so the icon lookup falls back exactly when the category is missing from the color table |
| `SportsConstants.IconFallbackIsRecognizable` | frontend/utils/constants.js:14-24 | the icon lookup returns "ellipse" exactly for unlisted categories, since no listed icon is "ellipse" |
| `ProfileCard.Split` | frontend/components/ProfileCard.js:8 | `split(' ')` gives at least one piece, and no piece contains a space |
| `ProfileCard.SplitJoinRoundTrip` | frontend/components/ProfileCard.js:8 | joining the pieces with spaces gives back the name, so only the space character separates words; tabs and other characters stay inside pieces |
| `ProfileCard.FirstChars` | frontend/components/ProfileCard.js:9-10 | each piece contributes at most one character |
| `ProfileCard.GetInitials` | frontend/components/ProfileCard.js:6-13 | the result always has length 1 or 2; an absent name gives "U" |
| `ProfileCard.FirstCharsAreWordStarts` | frontend/components/ProfileCard.js:8-10 | the split/first-character chain picks exactly the characters that start a word: non-spaces at the start of the name or after a space |
| `ProfileCard.InitialsAreWordStarts` | frontend/components/ProfileCard.js:7-12 | the initials are the first two word starts, upper-cased and in name order, or "U" when the name has no word |
| `ProfileCard.BlankHasNoWordStarts` | frontend/components/ProfileCard.js:8-10 | a name made only of spaces has no word start |
| `ProfileCard.BlankNameGivesU` | frontend/components/ProfileCard.js:12 | an empty name, or one made only of spaces, gives "U" |
| `ProfileCard.FirstInitialIsFirstLetter` | frontend/components/ProfileCard.js:9-11 | when a name starts with a non-space, its first initial is that character upper-cased |
| `ProfileCard.DoubledSpaceExample` | frontend/components/ProfileCard.js:8-10 | "a  b" gives "AB": the empty piece between two spaces adds nothing |
| `ProfileCard.TabExample` | frontend/components/ProfileCard.js:8 | "a\tb" gives "A": a tab does not separate words |
| `ProfileCard.ThreeWordsExample` | frontend/components/ProfileCard.js:12 | "a b c" gives "AB": only two initials are kept |

## Left out

- Persistence: MongoDB `find`, `findById`, `save` and `populate` are not modelled. `populate` resolves the host and the participants to display name and email. The model returns the identifiers themselves.
- Schema validation is not modelled. A save that Mongoose rejects (a missing field, a category outside the enumeration) does not happen in this model. `models/eventModel` is not part of this model.
- The empty participant list of a new event comes from the schema default. The model sets it explicitly.
- Parsing is not modelled: `parseInt(maxFee)` and `new Date(...)` in queries and bodies, NaN results, and query parameters given more than once. Fees and dates hold their parsed integer values.
- `search` is a MongoDB regular expression. The model treats it as a plain case-insensitive substring, which is the same thing for text without regular-expression metacharacters.
- Case mapping covers ASCII only. Unicode upper-casing (`'ß'` becomes `"SS"`) and UTF-16 code-unit slicing in `getInitials` are not modelled.
- Non-string values in request bodies are not modelled: numbers or objects in string fields, and an `entryFee` of `null`. An update's date and location cover only "absent" and "present".
- The read-then-write race of `registerForEvent` is not modelled. Each request is one atomic step, so two concurrent registrations by the same user cannot both succeed here.
- The chat append path, the socket notification channel and its subscriptions belong to a server file that is not part of this model. So the store holds no message writer, and `GetChatHistory` takes the message collection as an argument.
- MongoDB's sort does not promise an order between messages with equal `createdAt`. The model fixes store order for them.
- In `constants.js`, property names inherited from `Object.prototype` (such as `"toString"`) would be found by the source's lookups. The model's tables hold only their listed keys.
- `formatEventDate` and `calculateHoursLeft` in `constants.js` are left out: they use locale formatting and the wall clock.
- `THEME_COLORS` is modelled only through `primary`, the one entry the lookups use.
- Malformed ids are not modelled. `findById` and `find` throw a cast error for an `:id` that is no valid ObjectId (`eventController.js`, lines 22, 44, 65, 85 and 98), and the request then fails with a server error instead of 404. Ids here are natural numbers, so every id is well-formed.
- The HTTP layer is not modelled: `express-async-handler`, the response objects and the authentication middleware that supplies the caller. The caller is a parameter.
