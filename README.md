# nutzbook user module — a Dafny model

This project models the business rules of the user module of the nutzbook web
application (`UserModule`): the credential validator `checkUser`, and the
handlers `add`, `update`, `delete`, `login`, `logout`, `count` and `query`,
taken out of their web framework, ORM and authentication plumbing.

- `JavaText` gives the two string tests the validator relies on: blankness
  (`Strings.isBlank`, null or made of `Character.isWhitespace` characters) and
  `String.trim` (strip every character up to U+0020 from both ends). `Trim` is
  proved equal to an independent characterisation (`IsTrimOf`), and idempotent.
  Whitespace is that of Java 9 and later.
- `Messages` lists the ten rejection texts the handlers return, with their
  literal Chinese text.
- `UserRules` states `checkUser` as a function `Check` from the bean's fields,
  the mode (create or update) and the stored names to the answer and the bean's
  fields afterwards. `CheckRuleOrder` states the rule order: null object, blankness
  (both fields on create, only the password on update), trimmed password length
  6 to 12, then duplicate name (create) or id below 1 (update). The password is
  rewritten trimmed as soon as the length rule passes, even when a later rule
  rejects; the name is trimmed only on acceptance. `Check`'s own contract states
  what holds of each outcome.
- `UserHandlers` is the imperative part: the `User` bean as a class whose
  fields `CheckUser` rewrites in place, a `Session` holding the `me`
  attribute, and `UserModule`, whose fields are the abstract store (user rows
  by id, the owner ids of the UserProfile rows, the next id the store hands
  out). Each handler is a method whose contract gives the reply and the whole
  new state in terms of the old one; `CheckUser` and `Add` are tied to `Check`.

Where the described behaviour and the code differ, the model follows the code:

- `delete` removes the target user row but clears the profile rows owned by
  the signed-in user (`me`), not those of the target; an id of 0 or below is
  answered ok and changes nothing.
- `update` checks only that the new password is not blank and has at least 6
  characters; it neither trims it nor caps its length.
- `checkUser` rewrites the password as soon as the length rule passes, not
  only when the whole check succeeds.

## Model

| member | source | states |
|---|---|---|
| `JavaText.IsWhitespace` | src/main/java/net/wendal/nutzbook/module/UserModule.java:167-170 | the characters `Character.isWhitespace` accepts under Java 9 and later: tab to carriage return, U+001C to the space, and the Unicode space, line and paragraph separators except the no-break spaces |
| `JavaText.IsBlank` | src/main/java/net/wendal/nutzbook/module/UserModule.java:125 | `Strings.isBlank`: null, empty, or made of whitespace characters only; the blank rules at :125, :149, :167 and :170 all use it |
| `JavaText.AsciiBlankTrimsToEmpty` | src/main/java/net/wendal/nutzbook/module/UserModule.java:170-173 | for ASCII text a blank string trims to the empty string, so the gap between blankness and trimming lies outside ASCII |
| `JavaText.TrimStart` | src/main/java/net/wendal/nutzbook/module/UserModule.java:173 | the result is a suffix of the input, everything dropped is a character up to U+0020, and the result does not start with one |
| `JavaText.TrimEnd` | src/main/java/net/wendal/nutzbook/module/UserModule.java:173 | the result is a prefix of the input, everything dropped is a character up to U+0020, and the result does not end with one |
| `JavaText.Trim` | src/main/java/net/wendal/nutzbook/module/UserModule.java:173 | the result is no longer than the input, and has nothing trimmable at either end; `TrimIsTrimOf` states that it is the input with trimmable characters cut from its ends |
| `JavaText.TrimIsTrimOf` | src/main/java/net/wendal/nutzbook/module/UserModule.java:173 | `Trim` satisfies the characterisation: the input with trimmable characters cut from its ends, nothing trimmable left at either end |
| `JavaText.TrimCharacterised` | src/main/java/net/wendal/nutzbook/module/UserModule.java:173 | a string is the trim of another exactly when it satisfies the characterisation: `Trim` is its only solution |
| `JavaText.TrimKeepsTrimmed` | src/main/java/net/wendal/nutzbook/module/UserModule.java:189 | trimming a string with nothing to trim returns it unchanged |
| `JavaText.TrimIdempotent` | src/main/java/net/wendal/nutzbook/module/UserModule.java:173 | trimming twice gives the same as trimming once |
| `Messages.Text` | src/main/java/net/wendal/nutzbook/module/UserModule.java:86-185 | the literal reply text of each of the ten rejections |
| `Messages.TextIsInjective` | src/main/java/net/wendal/nutzbook/module/UserModule.java:86-185 | no two rejections share a text, so the reply text tells the rejection apart |
| `UserRules.Check` | src/main/java/net/wendal/nutzbook/module/UserModule.java:162-191 | a null bean gives the null-object message and nothing to rewrite; the id is never rewritten; acceptance leaves a trimmed password of 6 to 12 characters (and a name in create mode); a rejection never touches the name; with the lookup on the trimmed name an accepted name is new to the store |
| `UserRules.CheckRuleOrder` | src/main/java/net/wendal/nutzbook/module/UserModule.java:166-190 | on create a blank name or password gives the blank message with the bean unchanged; on update only password blankness is checked; a trimmed password outside 6..12 gives the length message with the bean unchanged; past that rule the password is the trimmed one even if a later rule rejects; a duplicate name (create) or an id below 1 (update) is rejected; acceptance holds exactly when every rule passes, and the name is then trimmed |
| `UserRules.AcceptedFieldsAreTrimmed` | src/main/java/net/wendal/nutzbook/module/UserModule.java:173-189 | on acceptance the stored password and name are the request's values with only surrounding trimmable characters removed |
| `UserRules.PaddedNameAccepted` | src/main/java/net/wendal/nutzbook/module/UserModule.java:178-190 | a stored name with a space in front passes the as-written duplicate rule and comes out as the stored name |
| `UserRules.DuplicateSlipsThrough` | src/main/java/net/wendal/nutzbook/module/UserModule.java:178-190 | with the as-written lookup, adding the accepted bean for such a name leaves two user rows with the same name |
| `UserRules.AddKeepsNamesUnique` | src/main/java/net/wendal/nutzbook/module/UserModule.java:178-182 | with the lookup on the trimmed name, adding an accepted bean keeps the user names unique |
| `UserRules.UpdateAccepts` | src/main/java/net/wendal/nutzbook/module/UserModule.java:125 | the update handler's password rule: not blank and at least 6 characters as given, untrimmed and with no upper bound |
| `UserRules.CheckedPasswordPassesUpdate` | src/main/java/net/wendal/nutzbook/module/UserModule.java:125 | every bean checkUser accepts in update mode has a password the update handler accepts too |
| `UserRules.UpdateIsLaxer` | src/main/java/net/wendal/nutzbook/module/UserModule.java:125-127 | a password the update handler accepts whose trimmed form is shorter than 6 is rejected by checkUser with the length message |
| `UserRules.RevalidateUpdate` | src/main/java/net/wendal/nutzbook/module/UserModule.java:169-190 | in update mode a bean checkUser accepted is accepted again unchanged, provided its trimmed password is not blank |
| `UserRules.AcceptedPasswordMayBeBlank` | src/main/java/net/wendal/nutzbook/module/UserModule.java:170-177 | a non-whitespace control character in front of a blank password is trimmed away after the blank rule, so checkUser accepts and stores a blank password that it would reject on a second check |
| `UserHandlers.QueryFilter` | src/main/java/net/wendal/nutzbook/module/UserModule.java:149 | no filter exactly when the name is blank, otherwise the name itself |
| `UserHandlers.Contains` | src/main/java/net/wendal/nutzbook/module/UserModule.java:149 | a name contains a filter when the filter is a contiguous piece of it, the meaning of `like %n%` |
| `UserHandlers.Matches` | src/main/java/net/wendal/nutzbook/module/UserModule.java:149 | a row is selected when there is no filter or its name contains the filter |
| `UserHandlers.InfixMatches` | src/main/java/net/wendal/nutzbook/module/UserModule.java:149 | a filter selects every name it occurs in, wherever it occurs |
| `UserHandlers.MatchIsPiece` | src/main/java/net/wendal/nutzbook/module/UserModule.java:149 | a name a filter selects is some prefix, then the filter, then some suffix, so it is at least as long as the filter |
| `UserHandlers.UserModule.CountNamed` | src/main/java/net/wendal/nutzbook/module/UserModule.java:179-180 | the count of rows with a given name is non-zero exactly when that name is stored |
| `UserHandlers.UserModule.Count` | src/main/java/net/wendal/nutzbook/module/UserModule.java:43-45 | the number of user rows |
| `UserHandlers.UserModule.CheckUser` | src/main/java/net/wendal/nutzbook/module/UserModule.java:162-191 | the answer and the bean's fields afterwards are those `Check` gives for the bean's fields before the call, create or update mode, the stored names and the untrimmed lookup |
| `UserHandlers.UserModule.Add` | src/main/java/net/wendal/nutzbook/module/UserModule.java:109-118 | a rejected bean writes nothing and the reply carries the rejection; an accepted bean adds exactly one row, under an id not in use, holding the trimmed name and password, and the reply shows its id and name |
| `UserHandlers.UserModule.Insert` | src/main/java/net/wendal/nutzbook/module/UserModule.java:116 | the store adds exactly one row, with the given name and password, under an id that was not in use, and hands out the next id afterwards |
| `UserHandlers.UserModule.Update` | src/main/java/net/wendal/nutzbook/module/UserModule.java:122-129 | a blank password or one shorter than 6 is refused with nothing written; otherwise the signed-in user's row gets the untrimmed password and no other row changes |
| `UserHandlers.UserModule.Delete` | src/main/java/net/wendal/nutzbook/module/UserModule.java:135-144 | deleting oneself is refused with nothing changed; an id of 0 or below answers ok with nothing changed; otherwise exactly user `id` is removed and exactly the profile rows owned by `me` are removed, so the target's profile rows survive |
| `UserHandlers.UserModule.Login` | src/main/java/net/wendal/nutzbook/module/UserModule.java:79-99 | a captcha mismatch fails with the session unchanged whatever the lookup would say; a negative lookup fails with the session unchanged; otherwise `me` is the looked-up id |
| `UserHandlers.UserModule.Logout` | src/main/java/net/wendal/nutzbook/module/UserModule.java:103-105 | the session no longer holds a signed-in user |
| `UserHandlers.UserModule.Query` | src/main/java/net/wendal/nutzbook/module/UserModule.java:148-155 | the selected rows are exactly those whose name contains the filter, all rows for a blank name, and the record count equals their number |

## Findings

| source | as written | input that shows it | evidently intended | confidence | as-written member | corrected member |
|---|---|---|---|---|---|---|
| src/main/java/net/wendal/nutzbook/module/UserModule.java:179 | the duplicate lookup asks for the name as bound, while the trimmed name is what gets stored (:189, :116) | "alice" stored, then add with name " alice" and a valid password | look up the name that will be stored, so user names stay unique | medium, not executed: it depends on how the database compares names and on whether the schema declares a unique index on the name column (which would make the insert fail instead) | `UserRules.DuplicateSlipsThrough` | `UserRules.AddKeepsNamesUnique` |

`Check` takes the lookup as a parameter (`RawName` as written, `TrimmedName`
corrected) so the rules are defined once; the handlers use `RawName`, as the
code does.

## Left out

- `UserHandlers.UserModule.Login`: the order of calls is not observable in a model where the lookup is a pure function; "no lookup before the captcha passes" is stated as the reply and the session not depending on the lookup when the captcha fails.
- `Toolkit.checkCaptcha` and `userService.fetch` are not part of this model; `Login` takes them as function parameters.
- `userService.add` and `userService.updatePassword` are not part of this model: they may hash and salt the password; the store here keeps the string the handler passes on, and new ids come from a counter.
- `Strings.isBlank` of the framework is not part of this model; it is taken to be null-or-all-`Character.isWhitespace`, with the whitespace set of Java 9 and later: under Java 8 the character U+180E also counts as whitespace.
- Java strings count UTF-16 code units; the model's strings are sequences of Unicode scalar values, so a character outside the Basic Multilingual Plane counts 1, not 2, in the length rules.
- The database's comparison rules (case, trailing spaces, collation) are not modelled: `name = n` is exact equality and `name like %n%` is exact substring search, with `%` and `_` inside the name taken literally.
- `UserHandlers.UserModule.Query`: the page slicing and row order of the `Pager` are left out; the method returns the set of every matching id.
- The unused `dao.fetch` in `login`, the Shiro subject login, and the other session attributes destroyed by `session.invalidate`: only the `me` attribute is modelled.
- The `CheckSession` filter and `@RequiresUser`: `Update` and `Delete` take `me` as a parameter, as the handler binds it from the session.
- The read-committed transaction on `delete`, and all concurrency between requests.
- The JSP pages (`loginPage`, `index`), routing and JSON serialisation beyond the `ok`/`msg`/`data` shape; a reply shows a user's id and name only, as the password is locked out of the JSON output.
- Faults such as an unavailable database, which end in the generic failure page.
- Ids are unbounded integers rather than 32-bit Java ints; the handlers only compare them.
- `BasePojo`'s creation and update timestamps, and the bean's salt field.
