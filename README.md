# Payroll core, modelled in Dafny

A Dafny model of the core of a small employee-payroll application, with proofs about it. The application has two front ends. One is an interactive console menu. The other is an HTTP/JSON API that also serves a static browser front end. Both keep employees in one `employee` table through a data-access object. The model covers:

- the `Employee` record with its derived pay (`employee.dfy`, module `Model`). BigDecimal arithmetic is in `decimals.dfy` (module `Decimals`): a decimal is an unscaled integer and a scale.
- `EmployeeDAO` over a table that is a map from id to row, plus an auto-increment counter (`employee_dao.dfy`, module `Dao`).
- from `PayrollServer`:
  - `JsonUtil` (`json_util.dfy`, module `Json`);
  - the body parsers, `stripQuotes`, `require`, the decimal readers and `readEmployeeFromParams` (`request_params.dfy`, module `Params`);
  - the route decision, the partial-update merge of PUT and the five handlers (`api_handler.dfy`, module `Api`);
  - `sanitizePath` and `contentType` (`static_files.dfy`, module `StaticFiles`).
- the update step of the console (`PayrollSystem.updateEmployee`) and its `truncate` and `repeat` helpers (`console.dfy`, module `Console`).
- `escapeHtml` of the browser front end (`html.dfy`, module `Frontend`).

`text.dfy` (module `Text`) holds the Java string operations the code relies on: `split`, `trim`, `indexOf`, `toLowerCase`, `Integer.parseInt` and `Integer.toString`. `wrappers.dfy` holds `Option`, which stands for a Java reference that may be `null`, and `Result`, which stands for a call that may throw. An `Err` carries the exception's message. For `truncate` and `repeat` that is the message of the JDK exception that `String.substring` and `StringBuilder` raise.

Each state-changing class is a Dafny `class`: `Employee`, `EmployeeDAO` and `EmployeeApiHandler`. Each method is proved against a function of the state. The handlers are proved against `Api.Reply`, the response, and `Api.After`, the table afterwards. The properties are then lemmas about those functions: round trips, "nothing else changes", what a later GET sees, and idempotence of the merges.

Where the two front ends differ, the model follows the code:

- **Empty name or designation in a PUT.** The HTTP handler uses `getOrDefault`, so a PUT replaces the stored name or designation with a supplied empty one. The console keeps the stored value when the answer is blank. `Api.HttpMerged` and `Console.MergesDisagreeOnEmptyName` state this. `Console.MergesAgree` shows that the two rules agree in every other case.
- **Unreadable amounts.** An unreadable amount in a PUT keeps the stored amount. On create, the same input is refused.

## Model

| member | source | states |
|---|---|---|
| `Model.Safe` | src/model/Employee.java:31-33 | a null amount counts as zero; any other amount is returned unchanged |
| `Model.GrossIsSum` | src/model/Employee.java:35-37 | the exact value of the gross pay is basic + HRA + DA, a null counting as zero |
| `Model.NetIsDifference` | src/model/Employee.java:39-41 | the exact value of the net pay is the three earnings less the deductions, nulls counting as zero |
| `Model.NetRoundedNearest` | src/model/Employee.java:43-45 | a net pay with at most two decimals keeps its value when rounded; a finer one is rounded to a cent within half a cent of it, and a tie goes away from zero |
| `Model.HalfCentRoundsUp` | src/model/Employee.java:43-45 | a net of 1000.005 rounds to 1000.01 |
| `Model.BelowHalfCentRoundsDown` | src/model/Employee.java:43-45 | a net of 1000.004 rounds to 1000.00 |
| `Model.NegativeHalfCentRoundsAway` | src/model/Employee.java:43-45 | a net of -1000.005 rounds away from zero, to -1000.01 |
| `Model.BlankPaysNothing` | src/model/Employee.java:35-45 | an employee whose amounts are all null, as `new Employee()` leaves it, has zero gross pay and 0.00 rounded net pay |
| `Model.NoEarningsNoGross` | src/model/Employee.java:35-37 | with every earning null, the gross pay is zero |
| `Model.NoDeductionsKeepGross` | src/model/Employee.java:39-41 | with the deductions null, the net pay equals the gross pay |
| `Model.ZeroNetRoundsToZero` | src/model/Employee.java:43-45 | a zero net pay rounds to 0.00 |
| `Model.SoleEarning` | src/model/Employee.java:35-41 | with a basic salary and every other amount null, the net pay is the basic salary itself |
| `Model.SoleDeduction` | src/model/Employee.java:39-41 | with deductions and every other amount null, the net pay is the negated deductions |
| `Model.NullIsZero` | src/model/Employee.java:17-25 | turning nulls into zeros, as the 7-argument constructor does, changes neither the gross pay nor the rounded net pay |
| `Model.Employee.Blank` | src/model/Employee.java:15 | the no-argument constructor leaves id 0 and every reference field null |
| `Model.Employee.constructor` | src/model/Employee.java:17-25 | stores id, name and designation as given and each amount through `safe`, so no amount is null afterwards |
| `Model.Employee.New` | src/model/Employee.java:27-29 | the 6-argument constructor is the 7-argument one with id 0 |
| `Model.Employee.SetId` | src/model/Employee.java:51-53 | changes the id and nothing else |
| `Model.Employee.SetName` | src/model/Employee.java:59-61 | changes the name and nothing else |
| `Model.Employee.SetDesignation` | src/model/Employee.java:67-69 | changes the designation and nothing else |
| `Model.Employee.SetBasicSalary` | src/model/Employee.java:75-77 | stores the basic salary through `safe` and changes nothing else, so the amounts stay non-null |
| `Model.Employee.SetHra` | src/model/Employee.java:83-85 | stores HRA through `safe` and changes nothing else, so the amounts stay non-null |
| `Model.Employee.SetDa` | src/model/Employee.java:91-93 | stores DA through `safe` and changes nothing else, so the amounts stay non-null |
| `Model.Employee.SetDeductions` | src/model/Employee.java:99-101 | stores the deductions through `safe` and changes nothing else, so the amounts stay non-null |
| `Decimals.AddExact` | src/model/Employee.java:36 | BigDecimal `add` is exact: the value of the sum is the sum of the values |
| `Decimals.SubtractExact` | src/model/Employee.java:40 | BigDecimal `subtract` is exact |
| `Decimals.RescaleKeepsValue` | src/model/Employee.java:36 | bringing an operand to the larger scale keeps its value |
| `Decimals.ZeroIsNeutral` | src/model/Employee.java:36-40 | adding or subtracting `BigDecimal.ZERO` returns the operand unchanged, scale included; zero minus x is -x at x's scale |
| `Decimals.DivHalfUp` | src/model/Employee.java:44 | the quotient is within half a unit of the exact quotient, and a tie goes away from zero |
| `Decimals.DivHalfUpUnique` | src/model/Employee.java:44 | only one integer meets that half-up rule, so the rounding is determined |
| `Decimals.HalfUpNearest` | src/model/Employee.java:44 | `setScale(n, HALF_UP)` keeps the value of a number with at most n decimals and otherwise rounds to the nearest unit of 10^-n, ties away from zero |
| `Decimals.ZeroAtScale` | src/model/Employee.java:44 | zero at any scale is zero |
| `Decimals.HalfUpExamples` | src/model/Employee.java:44 | 1000.005 becomes 1000.01, 1000.004 becomes 1000.00 and -1000.005 becomes -1000.01 |
| `Decimals.PlainRoundTrip` | src/web/PayrollServer.java:272 | the plain two-decimal rendering of an amount reads back as that amount |
| `Decimals.SetScaleKeeps` | src/web/PayrollServer.java:272 | rescaling to the scale the number already has returns it unchanged |
| `Text.IntToString` | src/web/PayrollServer.java:259 | the decimal rendering of an int is non-empty, and it starts with a digit exactly when the int is non-negative |
| `Text.IntRoundTrip` | src/web/PayrollServer.java:73 | `Integer.parseInt` reads back `Integer.toString(i)` as i for every 32-bit i |
| `Text.ParseInt` | src/web/PayrollServer.java:73 | a successful parse gives a value in the 32-bit range, read from text that starts with a sign or a digit |
| `Text.SplitOfJoin` | src/web/PayrollServer.java:69 | splitting pieces joined by a separator they do not contain gives the pieces back |
| `Text.JavaSplit` | src/web/PayrollServer.java:69 | `String.split` gives separator-free pieces, ends in a non-empty piece unless the input is empty, and returns the whole string when the separator is absent; the pieces joined by the separator are a prefix of the input, and only separators follow that prefix |
| `Text.IndexOf` | src/web/PayrollServer.java:170 | None exactly when the character is absent; otherwise the position of its first occurrence |
| `Text.Trim` | src/web/PayrollServer.java:183 | the result neither starts nor ends with a character at or below a space, and it is no longer than the input |
| `Text.TrimCutsBlanks` | src/web/PayrollServer.java:183 | `trim` keeps a contiguous middle part of the input and removes only characters at or below a space before and after it |
| `Json.EscapeChar` | src/web/PayrollServer.java:240-249 | each character becomes 1 to 6 printable characters; it stands for itself exactly when it is neither a quote, a backslash nor a control character |
| `Json.Escape` | src/web/PayrollServer.java:236-252 | the loop computes the escapes of the characters in order; null escapes to "" |
| `Json.EscapedConcat` | src/web/PayrollServer.java:239-250 | escaping distributes over concatenation |
| `Json.EscapedPrintable` | src/web/PayrollServer.java:247-248 | escaped text holds no raw control character |
| `Json.EscapedPlain` | src/web/PayrollServer.java:246-248 | text without quotes, backslashes or control characters is its own escape |
| `Json.HexRoundTrip` | src/web/PayrollServer.java:247 | each lower-case hex digit of `%04x` reads back as its value |
| `Json.EscapeRoundTrip` | src/web/PayrollServer.java:236-252 | a JSON reader recovers every string from its escape, so no two strings escape alike |
| `Json.Quote` | src/web/PayrollServer.java:254 | the result is the escape between two double quotes |
| `Json.QuoteRoundTrip` | src/web/PayrollServer.java:254 | a quoted string reads back as the string, and null as "" |
| `Json.Num` | src/web/PayrollServer.java:272 | null is written "0"; an amount is written as the plain text of its half-up rounding to two decimals |
| `Json.NumExact` | src/web/PayrollServer.java:272 | an amount with two decimals is written exactly |
| `Json.NetWrittenOnce` | src/web/PayrollServer.java:266-267 | the net pay written is the exact net rounded once; rounding the rounded value again changes nothing |
| `Params.GatherErrSticks` | src/web/PayrollServer.java:169-175 | once a pair has thrown, the parse fails with that message whatever follows |
| `Params.GatherPut` | src/web/PayrollServer.java:169-175 | one more pair either ends the parse with its exception, is skipped, or puts its key, overwriting an earlier value |
| `Params.GatherFirstError` | src/web/PayrollServer.java:172-173 | the parse fails with the message of the first pair that throws |
| `Params.GatherOk` | src/web/PayrollServer.java:188-194 | if no pair throws, the parse succeeds |
| `Params.GatherLastWins` | src/web/PayrollServer.java:174 | a key maps to the value of the last pair that puts it |
| `Params.GatherAbsent` | src/web/PayrollServer.java:171 | a key that no pair puts is absent from the result |
| `Params.ParseUrlEncoded` | src/web/PayrollServer.java:165-177 | the loop builds the map of the `&`-separated pairs (empty for an empty body), or fails with the first decoding error |
| `Params.ReadUrlPair` | src/web/PayrollServer.java:170-174 | a pair without `=` is skipped; otherwise both sides of its first `=` are decoded |
| `Params.StripQuotes` | src/web/PayrollServer.java:198-203 | one pair of surrounding quotes is removed; any other text is kept; a lone `"` throws |
| `Params.ParseSimpleJson` | src/web/PayrollServer.java:179-196 | an unbraced or empty object gives no parameters; otherwise the comma-separated pieces are gathered |
| `Params.PutJsonPairs` | src/web/PayrollServer.java:187-194 | the loop builds the map of the pieces, or fails with the first exception |
| `Params.ReadJsonPair` | src/web/PayrollServer.java:189-193 | a piece without `:` is skipped; otherwise it is split at its first `:`, and each side is trimmed and unquoted |
| `Params.ParamsOf` | src/web/PayrollServer.java:150-163 | a form-urlencoded Content-Type picks the form parser; otherwise a JSON one picks the JSON parser; otherwise, a missing header included, the form parser |
| `Params.ReadParams` | src/web/PayrollServer.java:155-162 | the method makes the same choice of parser |
| `Params.Require` | src/web/PayrollServer.java:218-222 | fails with "Missing parameter: key" exactly when the key is absent or empty, else returns its non-empty value |
| `Params.ParseDecimal` | src/web/PayrollServer.java:224-227 | fails with "Invalid number for value: s" exactly when the text is not a number |
| `Params.ParseDecimalOrDefault` | src/web/PayrollServer.java:229-232 | the default for missing, empty or unreadable text, else the number |
| `Params.RequireDecimal` | src/web/PayrollServer.java:208-211 | succeeds exactly when the parameter is present, non-empty and a number |
| `Params.CreateAccepts` | src/web/PayrollServer.java:205-211 | every check passes exactly when the six parameters are present and non-empty and the four amounts parse |
| `Params.ReadEmployeeFromParams` | src/web/PayrollServer.java:205-216 | fails with the first problem in the source's order of checks; otherwise a new employee holds the parameters, with id `idIfAny` when it is positive and 0 otherwise |
| `Api.FailureCarriesMessage` | src/web/PayrollServer.java:89-91 | an exception becomes status 500 with a JSON body whose `error` string reads back as the message |
| `Api.Decide` | src/web/PayrollServer.java:50-88 | GET and POST on the collection path (or a null path) list and create; the fourth `/`-piece of another path must be an int id, else 400; fewer than four pieces give 404; on a path with an int id, exactly GET, PUT and DELETE reach the get, update and delete handlers with that id; every other verb on the collection or an item gives 405 |
| `Api.ItemPathSplits` | src/web/PayrollServer.java:69 | `/api/employees/{id}` splits into "", "api", "employees" and the id text |
| `Api.ItemRoute` | src/web/PayrollServer.java:68-86 | for every int id, GET, PUT and DELETE on `/api/employees/{id}` reach their handler with that id, and any other verb gets 405 |
| `Api.HttpMerged` | src/web/PayrollServer.java:127-139 | a supplied name or designation replaces the old one even when empty; a supplied readable amount replaces the old one; everything else, the id included, is kept |
| `Api.HttpMergeIdempotent` | src/web/PayrollServer.java:127-139 | merging the same parameters twice is merging them once |
| `Api.HttpMergeNothing` | src/web/PayrollServer.java:127-139 | an empty parameter map leaves a loaded employee unchanged |
| `Api.ApplyHttpMerge` | src/web/PayrollServer.java:127-139 | the setter calls leave the employee equal to the merge of its old state |
| `Api.Listed` | src/dao/EmployeeDAO.java:71-82 | the listed employees are the loaded rows of the given ids, in that order |
| `Api.JsonItemsSnoc` | src/web/PayrollServer.java:101-104 | the JSON items of one more employee are the earlier items followed by its object |
| `Api.ArrayStep` | src/web/PayrollServer.java:102-103 | a comma goes before every object but the first, which keeps the text a `,`-joined array prefix |
| `Api.ArrayOf` | src/web/PayrollServer.java:99-105 | the loop writes the employees' JSON objects, comma-separated, between brackets |
| `Api.AppendItem` | src/web/PayrollServer.java:102-103 | one turn of the loop extends the array text by one object |
| `Api.RespondKeepsValid` | src/web/PayrollServer.java:50-95 | every request keeps each key below the counter and the counter positive |
| `Api.ReadsChangeNothing` | src/web/PayrollServer.java:57-88 | GET requests, and all requests while the database is unreachable, leave the table unchanged |
| `Api.OneRowAtATime` | src/web/PayrollServer.java:50-148 | a request changes no row other than the one it names and never lowers the counter |
| `Api.CreateAddsOne` | src/web/PayrollServer.java:115-120 | a successful POST adds exactly one row, under a key not in use, and answers 201 |
| `Api.CreateThenGet` | src/web/PayrollServer.java:115-120 | after a successful POST, a GET of the new id answers with the same JSON the POST returned |
| `Api.UpdateThenGet` | src/web/PayrollServer.java:122-141 | after a successful PUT, a GET of the id answers with the same response the PUT returned |
| `Api.DeleteThenGet` | src/web/PayrollServer.java:144-148 | after a successful DELETE, a GET and a second DELETE of the id both answer 404 |
| `Api.EmployeeApiHandler.constructor` | src/web/PayrollServer.java:47 | the handler keeps the DAO it is given |
| `Api.EmployeeApiHandler.Handle` | src/web/PayrollServer.java:50-95 | the response and the new table are `Reply` and `After` of the old table and the request |
| `Api.EmployeeApiHandler.HandleList` | src/web/PayrollServer.java:97-107 | answers 200 with every row as a JSON object in ascending id order, or 500 |
| `Api.EmployeeApiHandler.HandleGetOne` | src/web/PayrollServer.java:109-113 | answers 404 for an absent id, else 200 with the loaded row as JSON |
| `Api.EmployeeApiHandler.HandleCreate` | src/web/PayrollServer.java:115-120 | inserts the built employee and echoes it with its new id, or fails with the first exception and changes nothing |
| `Api.EmployeeApiHandler.HandleUpdate` | src/web/PayrollServer.java:122-141 | looks the id up before reading the body, writes the merged employee over its row and echoes it |
| `Api.EmployeeApiHandler.HandleDelete` | src/web/PayrollServer.java:144-148 | removes the row; answers 404 when it was absent and 200 when it was present |
| `StaticFiles.ForwardSlashes` | src/web/PayrollServer.java:308 | every backslash becomes `/`, every other character is kept, and no backslash remains |
| `StaticFiles.WithoutDotDot` | src/web/PayrollServer.java:310 | `replace("..", "")` never lengthens the text and never brings back a backslash |
| `StaticFiles.DotDotShrinks` | src/web/PayrollServer.java:309-310 | the replacement leaves text without ".." unchanged and removes at least two characters otherwise, so the loop ends |
| `StaticFiles.OnePassSuffices` | src/web/PayrollServer.java:309-311 | after one left-to-right replacement no ".." remains, so the loop runs at most once |
| `StaticFiles.Collapse` | src/web/PayrollServer.java:309-311 | the loop's result holds no ".." |
| `StaticFiles.CollapseIsOnePass` | src/web/PayrollServer.java:309-311 | the whole loop equals a single replacement |
| `StaticFiles.SanitizePath` | src/web/PayrollServer.java:307-314 | the method returns the sanitised path |
| `StaticFiles.SanitizedIsClean` | src/web/PayrollServer.java:307-314 | the result holds no ".." and no backslash, and it is the collapsed path with at most one leading slash removed |
| `StaticFiles.CleanPathUnchanged` | src/web/PayrollServer.java:307-314 | a relative path without backslashes or ".." is returned as it is |
| `StaticFiles.DoubleSlashKeepsOne` | src/web/PayrollServer.java:312 | only one leading slash is removed: "//etc/passwd" becomes "/etc/passwd" |
| `StaticFiles.ParentStepRemoved` | src/web/PayrollServer.java:307-313 | "/.." in front of a plain path is removed entirely |
| `StaticFiles.BackslashStepRemoved` | src/web/PayrollServer.java:308-311 | a Windows-style "..\\x" becomes "x" |
| `StaticFiles.ContentType` | src/web/PayrollServer.java:316-325 | the result is one of the six listed types or `application/octet-stream` |
| `StaticFiles.ExtensionsExclusive` | src/web/PayrollServer.java:318-323 | a name cannot end with two of the listed extensions, so the order of the tests never matters |
| `StaticFiles.TypeOfExtension` | src/web/PayrollServer.java:318-323 | a name whose lower-cased form ends with a listed extension gets that extension's type |
| `StaticFiles.ContentTypeByTable` | src/web/PayrollServer.java:316-325 | the fallback is returned exactly when no listed extension matches, and a matching extension decides the type |
| `StaticFiles.ContentTypeIgnoresCase` | src/web/PayrollServer.java:317 | the type does not depend on letter case |
| `StaticFiles.ContentTypeExamples` | src/web/PayrollServer.java:316-324 | "INDEX.HTML" is served as HTML and "notes.txt" as `application/octet-stream` |
| `Dao.StoreThenLoad` | src/dao/EmployeeDAO.java:84-93 | loading a stored employee gives back its texts and amounts, nulls read back as zero, under the key it was stored with |
| `Dao.KeysFrom` | src/dao/EmployeeDAO.java:71-82 | the keys `ORDER BY id` visits: exactly the keys in range, strictly ascending |
| `Dao.ListingIsComplete` | src/dao/EmployeeDAO.java:71-82 | in a valid table, listing up to the counter visits every row exactly once |
| `Dao.EmployeeDAO.constructor` | src/dao/EmployeeDAO.java:11 | a new gateway starts with an empty table and its counter at 1 |
| `Dao.EmployeeDAO.AddEmployee` | src/dao/EmployeeDAO.java:13-31 | inserts the row under a fresh key with nulls written as zero, advances the counter and sets the employee's id to the key; unreachable, it throws and changes nothing |
| `Dao.EmployeeDAO.UpdateEmployee` | src/dao/EmployeeDAO.java:33-46 | true exactly when the id has a row, which is then overwritten; no other row changes |
| `Dao.EmployeeDAO.DeleteEmployee` | src/dao/EmployeeDAO.java:48-55 | true exactly when the row existed; afterwards it does not, and no other row changes |
| `Dao.EmployeeDAO.GetEmployeeById` | src/dao/EmployeeDAO.java:57-69 | null exactly when the id has no row, else a new employee loaded from the row |
| `Dao.EmployeeDAO.GetAllEmployees` | src/dao/EmployeeDAO.java:71-82 | one new employee per row, loaded from it, in ascending id order |
| `Console.AmountAnswer` | src/main/PayrollSystem.java:174-185 | a blank line means null, a number means that number, and anything else is refused with the message "Please enter a valid number or leave blank." |
| `Console.ConsoleMerged` | src/main/PayrollSystem.java:94-99 | a non-empty text or a non-null amount replaces the current value; a blank answer keeps it; the id is never touched |
| `Console.ApplyConsoleMerge` | src/main/PayrollSystem.java:94-99 | the conditional setter calls leave the employee equal to the merge of its old state |
| `Console.BlankAnswersKeepAll` | src/main/PayrollSystem.java:94-99 | leaving every question blank changes nothing |
| `Console.ConsoleMergeIdempotent` | src/main/PayrollSystem.java:94-99 | giving the same answers twice is giving them once |
| `Console.ConsoleMergeKeepsAmounts` | src/main/PayrollSystem.java:96-99 | a loaded employee's amounts stay non-null after the merge |
| `Console.UpdateEmployeeFlow` | src/main/PayrollSystem.java:78-103 | reports a missing id and changes nothing; otherwise writes the merged employee over its row and reports the update |
| `Console.BlankUpdateRewritesSameRow` | src/main/PayrollSystem.java:94-101 | with every answer blank, the row written back is the row that was loaded, under the same id |
| `Console.MergesAgree` | src/main/PayrollSystem.java:94-99 | on a loaded employee, the console merge and the PUT merge agree whenever the name and designation, if supplied, are non-empty |
| `Console.MergesDisagreeOnEmptyName` | src/main/PayrollSystem.java:94 | an empty name blanks the name over HTTP but keeps it in the console |
| `Console.Truncate` | src/main/PayrollSystem.java:193-197 | null gives ""; text that fits is kept; longer text keeps its first max-1 characters and ends in an ellipsis; a width below 1 with text that does not fit throws with `substring`'s message "begin 0, end max-1, length n" |
| `Console.TruncateFits` | src/main/PayrollSystem.java:193-197 | with a width of at least 1, a cell never exceeds its width, and text that fits is never altered |
| `Console.Repeat` | src/main/PayrollSystem.java:187-191 | n copies of the character; a negative n throws with n in decimal as the message |
| `Frontend.Entity` | public/script.js:122 | each of the five special characters becomes an entity `&…;`; every other character stands for itself |
| `Frontend.EscapeHtml` | public/script.js:121-123 | the escaped text is never shorter than the input |
| `Frontend.EscapedHasNoMarkup` | public/script.js:121-123 | escaped text holds no `<`, `>`, `"` or `'` |
| `Frontend.PlainTextUnchanged` | public/script.js:121-123 | text without special characters is left as it is |
| `Frontend.EscapeConcat` | public/script.js:121-123 | escaping distributes over concatenation |
| `Frontend.GrowsOnlyOnSpecials` | public/script.js:121-123 | the length is unchanged exactly when no special character occurs |
| `Frontend.UnescapeEntity` | public/script.js:122 | an HTML reader reads each entity back as its character |
| `Frontend.EscapeRoundTrip` | public/script.js:121-123 | an HTML reader recovers every text from its escape |
| `Frontend.TagExample` | public/script.js:121-123 | `<b>` becomes `&lt;b&gt;` |

## Left out

- Database access: `DBConnection`, JDBC and SQL are not part of this model. The table is a map from id to row, and the auto-increment counter is a field. An unreachable database is the constant `EmployeeDAO.unavailable`, whose message every DAO operation reports as its SQLException. A failure that occurs only some of the time is not modelled.
- Concurrency: the HTTP server runs handlers on several threads, so two interleaved updates can lose one of them. Every request here runs alone.
- HTTP plumbing: reading the body bytes, headers, `sendText`/`sendJson`, closing the exchange and the stack trace printed on failure are left out. A response is only its status, Content-Type and body.
- Static file serving: the real file system is left out, and so are `Path.resolve`/`normalize`, the `startsWith(basePath)` check, the existence check and the `/` → `/index.html` default. Only `sanitizePath` and `contentType` are modelled.
- Library calls: `URLDecoder.decode` and `new BigDecimal(String)` are the function parameters `decode` and `parse`. Their own parsing rules are not modelled.
- Exception messages: a null exception message is not modelled. `escape(null)` is `""`, and the model always carries a message string.
- `Json.EmployeeToJson`: it has no contract of its own. What it writes is stated through `Json.QuoteRoundTrip`, `Json.Num`, `Json.NetWrittenOnce` and the handler lemmas that compare its output.
- `Decimals.PlainString2`: only `toPlainString` of a two-decimal number is modelled, because `num` always rounds to two decimals first. Other scales are not rendered.
- `Model.NetRoundedNearest`: the nearest-cent property is stated on integers at the finer scale (|r·10^k − n| ≤ 10^k/2). It is not stated on real values, although the two are equivalent.
- `Text.ParseInt`: accepts only the ASCII digits 0-9. Java's `Integer.parseInt` also accepts the decimal digits of other scripts, such as `١`. A path with such an id reaches a handler in Java but answers 400 "Invalid ID" here.
- Stored precision: the table keeps every amount exactly as it was given. The precision of the DECIMAL columns and any rounding on insert are not modelled. `Api.CreateThenGet` and `Api.UpdateThenGet` hold for such an exact table. For example, basic 1.005 and HRA 1.005 give a POST reply with gross 2.01, but a column with two decimals would store 1.01 twice, and a later GET would show 2.02.
- Integer width: ids and the counter are unbounded integers. `Integer.parseInt` is limited to the 32-bit range, but 32-bit overflow of the counter is not modelled.
- Characters: a Dafny `char` is a Unicode scalar value, not a UTF-16 unit. `toLowerCase(Locale.ROOT)` is modelled for ASCII letters only.
- The console: the menu, the prompt loops, re-prompting, `promptInt`, `printf` layout and `fmt` are left out. `UpdateEmployeeFlow` takes the six answers as already read. The texts are trimmed and blank amounts are null, as `promptStringAllowBlank` and `promptBigDecimalAllowBlank` return them; `AmountAnswer` models one reading of an amount.
- The browser front end: only `escapeHtml` is modelled. The DOM, fetch calls and formatting are left out.
- `handleUpdate` ignores the result of `updateEmployee`. The model ignores it the same way, which is harmless because the row was found just before and requests do not interleave.
