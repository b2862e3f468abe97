# Decision email and avatar initials — a Dafny model

This project models the two pieces of decision logic in a developer-evaluation web
application. The application's evaluators approve or reject developer submissions. Each decision
triggers an email.

- **The decision-email endpoint** (`POST /api/email-decision`). It reads the request fields
  `email`, `name`, `status` and `notes` and rejects the request when `email` or `status` is
  missing or empty; `name` and `notes` are not checked. It picks the approval or rejection template by exact
  comparison of `status` with `"approved"`. It builds the template variables: the developer's
  name, the notes or a fixed default text, the date, and the capitalised status. It addresses
  exactly one recipient. It turns the mail provider's reported status into a 200
  `{success: true}` or a 500 `Failed to send email`. A request without `email` or `status` gets a
  400 `Missing required fields`, and no message is sent.
- **The avatar initials** of the navigation bar (`getInitials`). The function splits the name on
  single spaces and keeps the first character of every non-empty piece. It upper-cases the
  result and keeps at most two characters. An empty or absent name gives `"?"`. At the call
  site, the user's email stands in for an empty name.

Files:

- `text.dfy` (module `Text`): JavaScript string values. It has absent-or-string fields
  (`Option<string>`), truthiness, `||`, ASCII `toUpperCase` and `substring(0, n)`.
- `initials.dfy` (module `Initials`): `split(' ')`, `join`, `getInitials` and the call-site
  fallback. It also has an independent one-pass scanner (`WordStarts`) that collects the
  characters that begin a word, with the lemmas relating the two.
- `decision_email.dfy` (module `DecisionEmail`): the request, the message and the response
  types, and the handler as pure functions `Prepare`, `Respond` and `Handle`.

Modelling choices:

- A JSON field is `None` when it is `undefined` or `null`. Otherwise it is `Some` string. The
  JavaScript test `!x` is `!Truthy(x)`, which is true for an absent or empty string.
- The mail provider is not called. Its answer is the input `ProviderReply`. That answer is
  either the status of the first message or an exception with its message. A reply without a
  first message throws a `TypeError` in the handler, so it is a `Threw` here.
- `Handle` returns the message handed to the provider (`sent`) together with the response.
  "No send attempted" therefore means `sent == None`.
- The template ids and the sender address come from environment variables. They are the
  `Config` parameter. The formatted current date is the parameter `today`.
- Characters are Dafny `char`s. Upper-casing maps only `a`–`z` to `A`–`Z`.

## Model

| member | source | states |
|---|---|---|
| `DecisionEmail.Prepare` | app/api/email-decision/route.ts:17-58 | The request is rejected exactly when `email` or `status` is absent or empty. Otherwise there is one message with one recipient, whose email is the request's `email` and whose name is the request's `name`. The approved template id is used iff `status` is exactly `"approved"`, and the rejected id otherwise. `developer_name` is `name`. The notes are passed through when non-empty and are the default text otherwise. The status variable has the length of `status`, an upper-cased first character and an unchanged rest. The sender is the configured address with the team name. |
| `DecisionEmail.Capitalize` | app/api/email-decision/route.ts:34 | The capitalised status has the same length, its first character is the upper case of the original first character, and every later character is unchanged. |
| `DecisionEmail.CapitalizeIdempotent` | app/api/email-decision/route.ts:34 | Capitalising twice equals capitalising once. |
| `DecisionEmail.NotesOrDefault` | app/api/email-decision/route.ts:32 | `evaluator_notes` is never empty. It equals the notes when they are a non-empty string and is exactly `No additional notes provided.` otherwise. |
| `DecisionEmail.TemplateFor` | app/api/email-decision/route.ts:25-27 | `"approved"` selects the approved template id, and every other status selects the rejected one. |
| `DecisionEmail.ApprovedIsCaseSensitive` | app/api/email-decision/route.ts:25-34 | The comparison is exact: `"Approved"` gets the rejection template, while `"approved"` is shown to the reader as `"Approved"`. |
| `DecisionEmail.Respond` | app/api/email-decision/route.ts:60-71 | The response is a 200 exactly when the provider reported `'success'` for the first message, and then the body is `{success: true}`. Every other outcome is a 500 `Failed to send email`. That error carries `Failed to send email via Mailjet` for a non-success status and the exception's own message for a failed call. |
| `DecisionEmail.Handle` | app/api/email-decision/route.ts:16-71 | No message is sent exactly when `email` or `status` is missing or empty, and then the answer is 400 `Missing required fields`. A sent message is the prepared one. When a message was sent, the response is the provider-outcome response of `Respond`: 200 `{success: true}` for `'success'`, otherwise 500 `Failed to send email` with the matching `error`. The body is `{success: true}` iff a message was sent and the provider reported `'success'`. The status code is 200, 400 or 500. |
| `DecisionEmail.BadRequestIgnoresProvider` | app/api/email-decision/route.ts:19-21 | For a rejected request, the whole exchange is the same whatever the provider would answer. |
| `DecisionEmail.SuccessIff` | app/api/email-decision/route.ts:19-67 | The response is 200 `{success: true}` iff validation passed and the provider reported `'success'`. A 200 always carries the success body and the success body always comes with 200. |
| `Initials.GetInitials` | components/Navbar.tsx:54-62 | An absent or empty name gives `"?"`. Any other name gives at most two characters, none of them a space and none of them a lower-case letter. |
| `Initials.AvatarFallback` | components/Navbar.tsx:104 | A non-empty name gives the initials of the name. An empty or absent name gives the initials of the email. When both are empty or absent the result is `"?"`. |
| `Initials.Split` | components/Navbar.tsx:57 | Splitting on single spaces gives at least one piece, and no piece contains a space. Its round trips with `Join` pin it down. |
| `Initials.Head` | components/Navbar.tsx:58-59 | A piece contributes at most one character, which is a prefix of the piece. It contributes nothing exactly when the piece is empty. |
| `Text.UpperChar` | app/api/email-decision/route.ts:34 | An ASCII lower-case letter becomes the matching upper-case letter. Every other character, the space included, is unchanged. The result is never a lower-case letter. |
| `Text.Or` | components/Navbar.tsx:104 | The logical or is truthy iff either operand is. It is the first operand when that is truthy and the second otherwise. |
| `Text.UpperString` | components/Navbar.tsx:60 | Upper-casing keeps the length, upper-cases every character in place, and contains a space iff the input does. |
| `Text.Substring` | components/Navbar.tsx:61 | The truncation is a prefix of the input, of length `n` when the input is long enough and of the whole input otherwise. |
| `Initials.FirstChars` | components/Navbar.tsx:58-59 | Mapping every piece to its first character and joining contributes at most one character per piece, and no space when the pieces are space-free. |
| `Initials.JoinSplit` | components/Navbar.tsx:57 | Joining the pieces of `split(' ')` with spaces gives back the original string. |
| `Initials.SplitJoin` | components/Navbar.tsx:57 | Splitting space-free pieces joined with spaces gives back exactly those pieces, empty ones included. |
| `Initials.FirstCharsOfSplit` | components/Navbar.tsx:56-59 | The first characters of the pieces of `split(' ')`, with empty pieces giving nothing, are exactly the word-initial characters found by the scanner, in order. A word-initial character is a non-space character at the start or right after a space. |
| `Initials.InitialsAreWordStarts` | components/Navbar.tsx:55-61 | The initials of a non-empty name are the upper-cased word-initial characters, truncated to two. |
| `Initials.InitialsLength` | components/Navbar.tsx:55-61 | A non-empty name has as many initials as it has words, up to two. |
| `Initials.LeadingSpaceIgnored` | components/Navbar.tsx:57-59 | A leading space in front of a non-empty name does not change the initials. |
| `Initials.TrailingSpaceIgnored` | components/Navbar.tsx:57-59 | A trailing space after a non-empty name does not change the initials. |
| `Initials.RepeatedSpaceIgnored` | components/Navbar.tsx:57-59 | Two consecutive spaces give the same initials as one. |
| `Initials.OnlySpacesGiveEmpty` | components/Navbar.tsx:55-59 | A non-empty name made only of spaces gives the empty string, not `"?"`. |
| `Initials.QuestionMarkOnlyWhenEmpty` | components/Navbar.tsx:55-61 | A non-empty name that does not contain `'?'` never gives `"?"`. |

## Left out

- The mail client and the actual send (the `Mailjet` connection and `request`). This is a network call. Its result is the `ProviderReply` input.
- `parseInt` of the template-id environment variables. This is configuration, and the ids are plain integers in `Config`. A `NaN` id is not modelled.
- `submission_date = new Date().toLocaleDateString()`. It depends on the clock and the locale, so it is the opaque parameter `today`.
- `request.json()` failing on a malformed body. That failure happens outside the handler's `try`, and the framework answers it. JSON fields holding non-string values (numbers, objects) are not modelled either. For such a `status`, `charAt` would throw and the handler would answer 500.
- `console.error` logging. This is I/O.
- The backend client construction, `handleLogout`, the JSX rendering and the mobile-menu toggle in components/Navbar.tsx. These are a foreign auth service and UI state.
- Text.UpperChar: upper-cases only ASCII `a`–`z`. JavaScript's `toUpperCase` also maps other letters, and it can turn one character into several (`ß` becomes `SS`).
- Initials.GetInitials: `part[0]` is modelled on Dafny characters (Unicode scalar values), not UTF-16 code units. A surrogate pair therefore counts as one character here.
