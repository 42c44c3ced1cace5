# whoinside — a verified model of the quiz pipeline

whoinside is a ten-question personality quiz. Each answer is one of eight
type codes (`A1` … `D2`). The quiz pages store the answer to question *n*
in the browser's `localStorage` under the key `Q<n>`. The result page reads
the ten stored answers back. It classifies them with `calculateResult`, a
plurality vote followed by a lookup in an eight-entry descriptor table. It
then shows the winning type with its reaction image.

Several smaller pieces surround this pipeline, and each is modelled too:

- the "my page" compatibility lookup between two types, and the
  connection list built on it;
- the e-mail form under the result, with its regular-expression check,
  submit gate and border colour;
- the nickname dialog's trim-and-confirm gate;
- the two rules that stage a share link's parameters in storage;
- the `/api/user` route, which inserts or updates rows of the `users` table.

The modules follow the program's files:

| module | file | models |
|---|---|---|
| `Js` | `js.dfy` | the JavaScript runtime behaviour the code relies on: nullable values, string truthiness, the whitespace set of `trim` and `\s`, decimal numerals and `parseInt`, and which object keys keep insertion order |
| `Classifier` | `classifier.dfy` | `calculateResult` and its descriptor table |
| `Storage` | `storage.dfy` | `localStorage`, as a class whose `items` map the methods update |
| `Quiz` | `quiz.dfy` | `getRandomQuestionByKey` and `handleChoice` |
| `ResultPage` | `result_page.dfy` | the result page's mount effect and its rendering |
| `MyPage` | `my_page.dfy` | `getCompatibility` and the connection cards |
| `EmailForm` | `email_form.dfy` | `ResultActions` |
| `NicknameModal` | `nickname_modal.dfy` | `NicknameModal` |
| `StorageInit` | `storage_init.dfy` | `LocalStorageInitializer` |
| `SearchParams` | `search_params.dfy` | `SearchParamsHandler` |
| `UserRoute` | `user_route.dfy` | the POST and PUT handlers of `/api/user` over the `users` table |

**The tie-break.** The code folds the keys with
`countMap[a] > countMap[b] ? a : b`. The strict comparison hands every tie
to the later key. So among the codes with the highest count, the winner is
the one whose first occurrence comes *latest*, and `A1, B2, A1, B2`
classifies as `B2` (`src/app/lib/calculateResult.ts:66-68`).
`Classifier.WinnerIsLatestPlurality`
characterises the winner exactly, and `Classifier.TieGoesToLaterFirstOccurrence`
works the example.

## Model

| member | source | states |
|---|---|---|
| Js.Trim | src/components/NicknameModal.tsx:34-35 | `trim` gives the infix of the input between leading and trailing whitespace; the result is empty exactly when the input is all whitespace, and otherwise it starts and ends with a non-whitespace character |
| Js.TrimIdempotent | src/components/NicknameModal.tsx:34-35 | trimming a trimmed string changes nothing |
| Js.Decimal | src/app/result/page.tsx:95 | the numeral `String(n)` of a natural number below 10^21 is a non-empty string of digits that starts with `0` only for zero |
| Js.ParseDigits | src/app/lib/useQuestion.ts:15 | `parseInt` of a digit string, read exactly, is zero exactly when every digit is `0`, and a single digit is read as itself |
| Js.ParseDecimal | src/app/lib/useQuestion.ts:15 | `parseInt` applied to the numeral of `n` gives `n` back |
| Js.DecimalOfParseDigits | src/app/lib/useQuestion.ts:15 | a digit string without a leading zero is the numeral of the number `parseInt` reads from it |
| Js.DecimalInjective | src/app/result/page.tsx:94-95 | two numbers with the same numeral are equal |
| Classifier.TypeCodesAreTableKeys | src/app/lib/calculateResult.ts:3-52 | the descriptor table has exactly the eight codes as keys, and none of them is an array index or an inherited object member |
| Classifier.Distinct | src/app/lib/calculateResult.ts:62-66 | `Object.keys(countMap)` lists each answer once, and lists nothing else |
| Classifier.DistinctSnoc | src/app/lib/calculateResult.ts:62-66 | one more answer adds a key at the end when the answer is new, and leaves the keys as they were when it is not |
| Classifier.DistinctFollowsFirstOccurrence | src/app/lib/calculateResult.ts:62-66 | the keys come in the order in which the answers first occur |
| Classifier.Tally | src/app/lib/calculateResult.ts:60-64 | the count map has exactly the answers as keys, and each count is that answer's number of occurrences, which is positive |
| Classifier.TallySnoc | src/app/lib/calculateResult.ts:62-64 | one more answer adds one to its count, or starts it at one when the answer is new |
| Classifier.TallySumsToLength | src/app/lib/calculateResult.ts:60-64 | the counts add up to the number of answers |
| Classifier.TallySumSnoc | src/app/lib/calculateResult.ts:60-64 | if the counts of a list add up to its length, they still do after one more answer |
| Classifier.Reduce | src/app/lib/calculateResult.ts:66-68 | the fold returns one of the keys, and no key has a greater count |
| Classifier.ReduceKeepsLastMaximum | src/app/lib/calculateResult.ts:66-68 | every key after the fold's winner has a strictly smaller count, so a tie goes to the later key |
| Classifier.Classify | src/app/lib/calculateResult.ts:54-79 | an empty answer list is an error; on success the type is one of the answers and a table key, and title, description and tmi are that entry's |
| Classifier.WinnerIsLatestPlurality | src/app/lib/calculateResult.ts:62-68 | the fold's winner is exactly the code that occurs in the answers, is not outnumbered, and is first seen after every other code with the same count (both directions) |
| Classifier.ClassifyIsLatestPlurality | src/app/lib/calculateResult.ts:54-79 | a successful classification names that latest-first-seen plurality code |
| Classifier.PermutationInvariantUnderUniqueMaximum | src/app/lib/calculateResult.ts:62-68 | when one code strictly outnumbers all others, every reordering of the answers is classified the same way |
| Classifier.UniqueMaximumWins | src/app/lib/calculateResult.ts:66-68 | a code that strictly outnumbers every other answer wins the fold |
| Classifier.UniqueMaximumClassifies | src/app/lib/calculateResult.ts:66-78 | such a code, when it is a table key, is the classification |
| Classifier.ClassifyOfCodesSucceeds | src/app/lib/calculateResult.ts:66-71 | a non-empty list of the eight codes never makes the lookup fail |
| Classifier.DistinctOfTie | src/app/lib/calculateResult.ts:62-66 | the keys of `A1, B2, A1, B2` are `A1, B2`, in that order |
| Classifier.TieFoldsToLaterFirstOccurrence | src/app/lib/calculateResult.ts:66-68 | on `A1, B2, A1, B2` the fold picks `B2` |
| Classifier.TieGoesToLaterFirstOccurrence | src/app/lib/calculateResult.ts:54-79 | `A1, B2, A1, B2` is classified as `B2` |
| Classifier.ClearMajorityWins | src/app/lib/calculateResult.ts:54-79 | five `A1` among ten answers, with at most two of any other code, classify as `A1` |
| Classifier.MajorityCounts | src/app/lib/calculateResult.ts:60-64 | in that ten-answer list `A1` occurs five times and every other answer at most twice |
| Classifier.CalculateResult | src/app/lib/calculateResult.ts:54-79 | the counting loop, the fold and the lookup compute exactly `Classify`; the loop keeps the key list and count map equal to those of the answers read so far |
| Classifier.CountAnswers | src/app/lib/calculateResult.ts:60-66 | the counting loop leaves exactly the answers, in first-seen order, as keys, and each answer's number of occurrences as its count |
| Storage.LocalStorage.GetItem | src/app/result/page.tsx:95 | `getItem` returns the stored value, or null for an absent key |
| Storage.LocalStorage.SetItem | src/app/lib/useQuestion.ts:14 | `setItem` stores the value under the key and leaves every other key as it was |
| Storage.LocalStorage.Clear | src/components/LocalStorageInitializer.tsx:20 | `clear` empties the store |
| Quiz.QuestionKey | src/app/result/page.tsx:95 | `Q${i}` is "Q" followed by a decimal numeral |
| Quiz.QuestionNumber | src/app/lib/useQuestion.ts:15 | the number is `parseInt` of the numeral after the leading `Q`, and the key is that number's key exactly when its numeral has no leading zero |
| Quiz.LeadingZeroKeyReadsAsItsNumber | src/app/lib/useQuestion.ts:15 | `Q01` is read as question 1 but is not question 1's key |
| Quiz.QuestionNumberOfKey | src/app/lib/useQuestion.ts:15 | reading the number back out of the key of question `n` gives `n` |
| Quiz.QuestionKeyInjective | src/app/result/page.tsx:94-95 | different questions are stored under different keys |
| Quiz.NextPage | src/app/lib/useQuestion.ts:15-16 | the next page is `/result` exactly when the key names question 10 |
| Quiz.NextPageAfterQuestion | src/app/lib/useQuestion.ts:15-16 | after question 10 comes `/result`; after any other question `n` below 2^53 comes `/quiz/q<n+1>` |
| Quiz.HandleChoice | src/app/lib/useQuestion.ts:12-19 | the choice is stored under the question's key, no other key changes, and the navigation target is `NextPage` of the key |
| Quiz.RandomIndex | src/app/lib/useQuestion.ts:8 | `Math.floor(Math.random() * len)` lies in `[0, len)` |
| Quiz.GetRandomQuestionByKey | src/app/lib/useQuestion.ts:5-10 | the result is null exactly when the key has no pool or an empty one; otherwise it is an element of the pool |
| ResultPage.StagedAnswers | src/app/result/page.tsx:93-97 | at most `n` answers are collected, and none of them is empty |
| ResultPage.StagedAnswersFull | src/app/result/page.tsx:93-98 | ten answers are collected exactly when all ten slots hold a non-empty value |
| ResultPage.StagedAnswersInOrder | src/app/result/page.tsx:93-97 | on a full set, answer `i - 1` is the value stored for question `i` |
| ResultPage.StagedAnswersFromSlots | src/app/result/page.tsx:93-97 | every collected answer is the value of one of the slots Q1..Qn |
| ResultPage.StagedCodesAreCodes | src/app/result/page.tsx:93-98 | when all ten slots hold type codes, the ten collected answers are all type codes |
| ResultPage.KeptUuid | src/app/result/page.tsx:82 | the uuid is the stored one when that is non-empty, otherwise the fresh one, and it is never empty while the fresh one is not |
| ResultPage.EffectResult | src/app/result/page.tsx:93-107 | a full set of ten answers that classifies replaces the result with its classification; the result changes in no other case |
| ResultPage.StagedAnswersIgnoreOtherKeys | src/app/result/page.tsx:82-97 | writing a key other than Q1..Qn does not change the collected answers |
| ResultPage.CollectAnswers | src/app/result/page.tsx:93-97 | the loop over `i = 1..10` collects exactly `StagedAnswers` of the store |
| ResultPage.UuidKeptOrCreated | src/app/result/page.tsx:82-83 | a stored uuid is kept, a missing or empty one is replaced by the fresh one, and a second run keeps what the first stored |
| ResultPage.EffectClassifiesFullAnswerSets | src/app/result/page.tsx:98-107 | without ten answers the result stays as it was; with ten the classifier never sees an empty list; ten stored type codes always classify, and the result becomes their classification |
| ResultPage.UuidIsNotAQuestionKey | src/app/result/page.tsx:83-95 | "uuid" is not a question key |
| ResultPage.ResultView.constructor | src/app/result/page.tsx:50 | the result starts out empty |
| ResultPage.ResultView.MountEffect | src/app/result/page.tsx:81-116 | the effect stores the kept-or-fresh uuid and changes no other key; the result becomes the classification of the ten answers when there are ten and classification succeeds; the error is reported exactly when ten answers fail to classify |
| ResultPage.StoreUuid | src/app/result/page.tsx:82-83 | the stored uuid is the kept-or-fresh one and no other key changes |
| ResultPage.ClassifyWhenFull | src/app/result/page.tsx:93-107 | `calculateResult` on the staged answers leaves exactly the effect's result, and throws exactly when a full set fails to classify |
| ResultPage.Render | src/app/result/page.tsx:118-155 | with no result only the loading text is shown; otherwise the result's title, description and tmi, and the reaction image of the result's own type, or no image when the type has none |
| ResultPage.ReactionShownForEveryType | src/app/result/page.tsx:14-47 | every type the classifier can return has a reaction image, and the card shows that type's image |
| MyPage.GetCompatibility | src/app/me/_components/MyPageContent.tsx:44-55 | an entry is found exactly when either directional key is present; the forward key's entry wins when it is present; the result is always an entry of the table |
| MyPage.PairKey | src/app/me/_components/MyPageContent.tsx:45-46 | `${a}_${b}` consists of the first code, an underscore and the second code |
| MyPage.PairKeyInjective | src/app/me/_components/MyPageContent.tsx:45-46 | for codes without an underscore, two pairs share a key exactly when they are the same pair, so the forward and reverse keys of different codes differ |
| MyPage.ReverseKeyFallback | src/app/me/_components/MyPageContent.tsx:47-53 | with only the reverse key present, its entry is returned |
| MyPage.GetCompatibilitySymmetric | src/app/me/_components/MyPageContent.tsx:44-55 | swapping the two types gives the same answer when the table holds at most one direction or the same entry under both |
| MyPage.BothDirectionsStoredBreaksSymmetry | src/app/me/_components/MyPageContent.tsx:47-53 | with different entries under both directions, swapping the types changes the answer |
| MyPage.Cards | src/app/me/_components/MyPageContent.tsx:325-327 | each card belongs to a connection with an entry and carries its nickname and entry; cards keep the connections' order; every connection with an entry gets a card |
| MyPage.RenderConnections | src/app/me/_components/MyPageContent.tsx:314-327 | the "no friends yet" message is shown exactly for an empty connection list; otherwise the cards are shown |
| MyPage.NoEntriesNoCards | src/app/me/_components/MyPageContent.tsx:325-327 | connections none of which has an entry give no cards |
| MyPage.UnmatchedConnectionsRenderNothing | src/app/me/_components/MyPageContent.tsx:314-327 | a non-empty list without entries renders an empty card list, not the message |
| EmailForm.ValidateEmail | src/components/ResultActions.tsx:10-13 | an accepted address has at least five characters |
| EmailForm.ValidEmailMatchesPattern | src/components/ResultActions.tsx:11 | every address the check accepts has the form local@domain.last with three non-empty parts free of whitespace and '@' |
| EmailForm.PatternMatchIsValidEmail | src/components/ResultActions.tsx:11 | every string of that form is accepted |
| EmailForm.ValidateEmailMatchesPattern | src/components/ResultActions.tsx:10-13 | the check accepts exactly the strings the regular expression matches |
| EmailForm.EmptyAndSpacedAddressesInvalid | src/components/ResultActions.tsx:11 | the empty address is rejected, and so is one that contains a space |
| EmailForm.BorderClassMeaning | src/components/ResultActions.tsx:40-46 | the border is gray exactly for the empty address, green exactly for a valid one, and red exactly for a non-empty invalid one |
| EmailForm.BorderClass | src/components/ResultActions.tsx:40-46 | gray exactly for an empty address, whatever the flag; otherwise green exactly when the flag is set and red exactly when it is not |
| EmailForm.ResultActions.constructor | src/components/ResultActions.tsx:7-8 | the form starts empty and invalid, and `isValid` agrees with the address |
| EmailForm.ResultActions.HandleChange | src/components/ResultActions.tsx:15-19 | after a change the address is the new value and `isValid` is its verdict |
| EmailForm.ResultActions.HandleSubmit | src/components/ResultActions.tsx:21-24 | nothing is sent exactly when the button is disabled; otherwise the current, valid address is sent |
| EmailForm.ResultActions.Border | src/components/ResultActions.tsx:40-46 | the input is green exactly for a valid address, gray exactly for an empty one, and red exactly for a non-empty invalid one |
| EmailForm.ResultActions.SubmitDisabled | src/components/ResultActions.tsx:51 | the submit button is disabled exactly while the address is not valid |
| NicknameModal.ConfirmGate | src/components/NicknameModal.tsx:34-35 | `onConfirm` is called exactly when the nickname is not all whitespace, and it receives the trimmed nickname, which is non-empty and has no whitespace at either end |
| NicknameModal.ConfirmGateStable | src/components/NicknameModal.tsx:34-35 | a confirmed nickname confirms unchanged |
| NicknameModal.ConfirmGateDropsSurroundingSpaces | src/components/NicknameModal.tsx:34-35 | " 민수 " is confirmed as "민수", and a nickname of only spaces is not confirmed |
| NicknameModal.NicknameDialog.constructor | src/components/NicknameModal.tsx:17 | the nickname starts out empty |
| NicknameModal.NicknameDialog.Change | src/components/NicknameModal.tsx:31 | the raw, untrimmed input becomes the nickname |
| NicknameModal.NicknameDialog.KeyDown | src/components/NicknameModal.tsx:32-38 | only Enter can confirm, and it goes through the shared gate |
| NicknameModal.NicknameDialog.ClickConfirm | src/components/NicknameModal.tsx:42-46 | the button goes through the same gate as Enter |
| NicknameModal.Render | src/components/NicknameModal.tsx:19-49 | a closed dialog renders nothing; an open one labels its button by whether the visitor came through a share |
| StorageInit.InitializedItems | src/components/LocalStorageInitializer.tsx:11-28 | off the home page the store is unchanged; without `from` it is emptied; with all three parameters it holds exactly `from`, `fromType` and `fromNickname` with their values; with `from` but another parameter missing it is left as it was |
| StorageInit.InitializeIdempotent | src/components/LocalStorageInitializer.tsx:19-28 | running the reset twice gives what running it once gives |
| StorageInit.LandingKeepsOnlyShareKeys | src/components/LocalStorageInitializer.tsx:19-28 | when the reset on the home page changes the store, only share keys are left |
| StorageInit.InitializeStorage | src/components/LocalStorageInitializer.tsx:9-30 | `clear` and the three `setItem` calls leave the store as `InitializedItems` says |
| SearchParams.SharedItems | src/components/SearchParamsHandler.tsx:14-18 | with all three parameters the three share keys are set to them and every other key keeps its value; otherwise the store is unchanged |
| SearchParams.SharedItemsIdempotent | src/components/SearchParamsHandler.tsx:15-17 | writing the same parameters twice gives what writing them once gives |
| SearchParams.HandlerAfterInitializerOnLanding | src/components/SearchParamsHandler.tsx:14-18 | on the home page the handler changes nothing that the initializer left |
| SearchParams.HandlerKeepsOtherKeys | src/components/SearchParamsHandler.tsx:14-18 | unlike the initializer, the handler never removes a key outside the three share keys |
| SearchParams.StageShareParams | src/components/SearchParamsHandler.tsx:9-19 | the three conditional `setItem` calls leave the store as `SharedItems` says |
| UserRoute.PostOutcome | src/app/api/user/route.ts:6-51 | a missing or empty uuid, nickname or type gives 400 and leaves the table unchanged; an existing uuid gets the new nickname and type and keeps its id, email and payment flag; a new uuid gets exactly one new row with no email; no other row changes |
| UserRoute.PutOutcome | src/app/api/user/route.ts:53-102 | a missing or empty uuid or email gives 400; an existing uuid gets only its email changed; a new uuid gets a row with the email, type and nickname; without a type or nickname the insert is refused with 500; a failed call changes nothing |
| UserRoute.PostKeepsInvariant | src/app/api/user/route.ts:17-38 | POST keeps every row under its own uuid with a unique id, and after success exactly one row carries the uuid |
| UserRoute.PutKeepsInvariant | src/app/api/user/route.ts:64-89 | the same for PUT |
| UserRoute.PostRepeated | src/app/api/user/route.ts:18-30 | a repeated POST reports an update and leaves the table as the first one left it |
| UserRoute.PostThenPut | src/app/api/user/route.ts:6-102 | a POST followed by a PUT for the same uuid leaves the registered nickname and type with the new email |
| UserRoute.PutWithoutNicknameFails | src/app/api/user/route.ts:72-88 | with the presence check commented out, a PUT for a new uuid without a nickname fails with 500 |
| UserRoute.UserTable.constructor | src/app/lib/schema.ts:12-20 | the table starts empty and consistent |
| UserRoute.UserTable.Post | src/app/api/user/route.ts:6-51 | the select-then-update-or-insert handler computes exactly `PostOutcome` and keeps the table consistent |
| UserRoute.UserTable.Put | src/app/api/user/route.ts:53-102 | the PUT handler computes exactly `PutOutcome` and keeps the table consistent |

## Left out

- Classifier.CalculateResult: every answer must be a key that an object keeps in insertion order. That excludes array-index strings such as "7", which `Object.keys` lists first in numeric order. It also excludes names inherited from `Object.prototype`, for which `countMap[answer] || 0` reads the inherited member. The eight type codes satisfy this (`Classifier.TypeCodesAreTableKeys`).
- ResultPage.ResultView.MountEffect: when ten answers are staged they must satisfy the same requirement; fewer answers never reach `calculateResult`, so nothing is required of them. An error thrown by `calculateResult` is returned as `thrown` and leaves the result unchanged; how React then reports the error is not modelled.
- Quiz.NextPage: the key must be "Q" followed by decimal digits. For other keys, `parseInt` gives a partial number or NaN, and that is not modelled. The same requirement applies to Quiz.HandleChoice. Question numbers are modelled as unbounded integers, not JavaScript doubles. Two cases are not modelled. From 2^53 up, `parseInt` rounds the numeral and `current + 1` may leave the value unchanged, so the page for `Q9007199254740992` links to itself where Quiz.NextPageAfterQuestion gives `/quiz/q9007199254740993`. From 10^21 up, `String` writes exponent notation such as `1e+21`, where Js.Decimal gives the full numeral. Quiz.NextPageAfterQuestion, Quiz.HandleChoice and Js.Decimal share this gap. The quiz route passes only the keys Q1 to Q10, far below both limits.
- Quiz.NextPageAfterQuestion: the next page of question `n` is stated for unbounded `n`; the double rounding from 2^53 up, described in the line above, is not modelled.
- Quiz.HandleChoice: the navigation target inherits the same unbounded-integer reading of the question number.
- Js.Decimal: gives the full digit string for every natural number; the exponent notation `String` uses from 10^21 up is not modelled.
- Js.ParseDigits: reads a digit string as an exact integer; the rounding of `parseInt` to a double from 2^53 up is not modelled.
- Quiz.HandleChoice: the `typeof window` guard is left out, and the assignment to `window.location.href` is returned as the navigation target.
- Quiz.RandomIndex: the `Math.random()` sample is a real-number parameter in [0, 1), not an IEEE double.
- The JSON data files `questions.json` and `compatibilityDescriptions.json` are not part of this model. They are parameters: a map from key to question pool, and a map from pair key to entry.
- `crypto.randomUUID()` is a parameter (`freshUuid`), and the model assumes it is non-empty.
- The Kakao SDK initialisation and sharing, `alert`, the markup and animations, and the quote of the reaction (commented out in the page) are not modelled. The model also leaves out how `ResultActions` is embedded in the result page.
- EmailForm.ResultActions.HandleSubmit: the alert text is represented by the address it names.
- Query strings are maps that give the first value of each parameter name. URL decoding is not modelled.
- UserRoute.PostOutcome: each request field is absent or a string. Non-string JSON values are not modelled, and neither are malformed bodies or database failures. The only path to the handler's catch-all 500 reply ("Server error") comes from these, so that reply is not modelled. The same applies to UserRoute.PutOutcome, except that the 500 reply for a refused insert is modelled.
- UserRoute.PutOutcome: an insert without a type or nickname is modelled as refused by the NOT NULL columns, as a MySQL server in strict mode does. The column length limits (`type` is `varchar(3)`, for example) are not checked, and a failed insert does not consume an auto-increment value.
- UserRoute.PostOutcome: uuids are matched by exact string equality. The `uuid` column declares no collation, so the server default applies, which on MySQL 8 is case- and accent-insensitive; under it `eq(users.uuid, uuid)` and the unique index treat `"ABC"` and `"abc"` as one uuid, where the model inserts a second row. The collation-based comparison is not captured.
- UserRoute.PutOutcome: uuid matching is exact string equality, not the database collation's comparison, as for UserRoute.PostOutcome.
- `created_at` and the 64-bit width of `id` are not modelled. The HTTP envelope is left out: each reply is a status, a success flag and a message.
- The check-then-insert race between concurrent requests to `/api/user` is not modelled; calls are sequential.
- `localStorage` quota errors and storage events from other tabs are not modelled.
