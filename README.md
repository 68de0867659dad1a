# Meal-plan bot: a verified model of its engine

`meal_bot.py` is a chat bot for a canteen's meal plan. It runs a four-week cycle of five working days. Administrators keep a catalog of meals and desserts for each day and register users. Users log in and choose one meal and one dessert per day. The choices live in a spreadsheet, one row per user. Every change to a choice is written to a change log.

This project models the engine under the chat transport and the file handling. It covers:

- the four stores: the user registry, the daily catalog, the meal-plan sheet and the change log;
- the login sessions;
- what each conversation has collected so far (`context.user_data`);
- the six conversation handlers wired in `main`, with their thirteen states;
- the callback tokens that the inline buttons carry.

## Modules

| module | what it holds |
|---|---|
| `Wrappers` | `Option`, `Result` and the Python exceptions the handlers can raise. |
| `PyText` | The parts of Python's string behaviour the bot relies on: `strip()`, `startswith`, `replace(p, '')`, `split('_')`, `'_'.join`, `str(n)` and `int(s)`. |
| `Layout` | The column formula of the sheet. Also the header loop of `create_excel`, as a method with loop invariants. |
| `Sheet` | The sheet as a value. Includes the two row searches (the `for` over user rows and the `while` for the first empty row), each as a method proved against a function. |
| `Catalog` | The twenty (week, day) lists of meals and desserts. Also `list.pop` and `text.replace(prefix, '').strip()`. |
| `Registry` | The user records, the seeded administrator, and sessions. |
| `Tokens` | How the handlers build callback tokens and take them apart with `split('_')`, with round-trip lemmas. |
| `Conversation` | The states and the handler tables. Models how the chat library routes an update: first the `/start` command, then the six conversations in registration order, then `handle_text`. A conversation looks at its entry points only while inactive; while active it looks at its current state's handlers, then its fallbacks. |
| `Bot` | Class `MealBot`. Its fields are the stores, the sessions, each user's collected data and each user's open conversations. There is one method per handler, a dispatcher, and `HandleUpdate`, which routes one update and advances the conversation it reaches. |

## Conventions

**Handlers and exceptions**
- A handler returns an `Outcome`: `Goto(state)`, `End`, or `Crash(error)` for an uncaught Python exception.
- When a handler raises, the chat library keeps the conversation in its current state. Whatever the handler had already written stays written; the model keeps those writes too.

**The `MealBot.Valid()` invariant.** Every handler keeps it. It says:
- the catalog has exactly its twenty days;
- no stored cell of the sheet is empty, and every stored cell lies within `max_row`;
- the seeded `admin` is the only administrator;
- every session belongs to a registered user;
- every open conversation is in one of its own states.

**Stores**
- SHA-256 is the constructor parameter `hash`, a fixed function from a password to its digest.
- The catalog is keyed by the (week, day) strings of the JSON keys `week_{w}` and `day_{d}`.
- A log entry is its actor string. There is no timestamp.

## Model

| member | source | states |
|---|---|---|
| Layout.SlotColumnInRange | meal_bot.py:735-737 | Every meal and dessert column of the 4 x 5 cycle lies in columns 2..41. |
| Layout.SlotColumnInjective | meal_bot.py:819-826 | Two different (week, day, meal/dessert) slots never share a column. |
| Layout.SlotAt | meal_bot.py:735-737 | Every column 2..41 belongs to some slot of the cycle, so the slots cover exactly columns 2..41. |
| Layout.SlotAtColumn | meal_bot.py:735-737 | `SlotAt` undoes the column formula, so the formula is a bijection between the 40 slots and columns 2..41. |
| Layout.HeaderCells | meal_bot.py:78-85 | The header loop writes exactly A1, one title per day in row 1 and a meal/dessert label pair per day in row 2. Each day's title and labels sit at the column the formula computes. |
| Layout.WeekHeaders | meal_bot.py:80-85 | One pass of the inner loop extends the written block by one week's ten columns and keeps every header written before. |
| Layout.HeaderValuesNonEmpty | meal_bot.py:78-85 | No header cell is empty. |
| Layout.HeaderTitleInjective | meal_bot.py:81 | Different days get different row-1 titles. |
| Sheet.Write | meal_bot.py:824-826 | A cell write changes that one cell and no other, keeps the sheet well formed, and an empty value leaves the cell empty. |
| Sheet.NewSheet | meal_bot.py:69-100 | `create_excel` gives a sheet holding exactly the header cells, with `max_row` 2. |
| Sheet.FindUserRow | meal_bot.py:724-728 | The loop over rows 3..max_row+1 returns the first row whose name cell holds the full name, or None when no row from 3 on holds it. |
| Sheet.UserRowCorrect | meal_bot.py:813-817 | The lookup succeeds iff the name has a user row, and then it returns that row. |
| Sheet.UserRowUnique | meal_bot.py:725-728 | A name has at most one first row. |
| Sheet.FirstEmptyRow | meal_bot.py:346-348 | The `while` loop stops at the first row from 3 on whose name cell is empty. |
| Sheet.AddedNameIsFound | meal_bot.py:344-349 | When no earlier row holds the name, a non-empty name written into the first empty row is afterwards found there by the lookup. |
| Sheet.SlotWriteKeepsUserRows | meal_bot.py:819-826 | Writing a meal or dessert cell moves no user's row. |
| Catalog.InitialMenu | meal_bot.py:50-56 | The default catalog has the twenty (week, day) keys, each with no meals and no desserts. |
| Catalog.CatalogKeyIsSlot | meal_bot.py:50-56 | Each catalog key is the decimal form of a week 1..4 and a day 1..5, and `int` reads it back. |
| Catalog.PopIndex | meal_bot.py:568 | `pop(idx)` accepts exactly -len..len-1, counting negative indexes from the end. Any other index, including every index into an empty list, raises IndexError. |
| Catalog.RemoveAt | meal_bot.py:568 | Popping position i leaves a list one shorter: the elements before i stay in place and the ones after i shift down by one. |
| Catalog.RemoveAtMultiset | meal_bot.py:568 | Popping loses exactly one copy of the popped item and nothing else. |
| Catalog.RemoveAtKeepsOrder | meal_bot.py:568 | Any two remaining items keep their relative order. |
| Catalog.ItemNameOfRequest | meal_bot.py:507-512 | For a message made of the prefix and a rest without the prefix, the stored name is the stripped rest. |
| Catalog.ItemNameDropsInnerPrefix | meal_bot.py:508 | `replace` also removes a prefix inside the name: "غذا:a غذا:b" is stored as "a b". |
| Registry.InitialUsers | meal_bot.py:38-45 | The seeded registry holds only `admin`: an administrator with the hash of `admin123` and no chat account. |
| Registry.NewUser | meal_bot.py:333-338 | A new user is stored as a non-administrator with the hashed password, the full name and no chat account. |
| Registry.SessionFor | meal_bot.py:198-202 | A session carries the user's username, role and full name. |
| Registry.InitialAdminOnlyTheSeed | meal_bot.py:38-45 | In the seeded registry the administrator is the only administrator. |
| Registry.AddNonAdminKeepsSeed | meal_bot.py:333-338 | Storing a non-administrator under any name but `admin` keeps `admin` the only administrator. |
| Tokens.ThirdPiece | meal_bot.py:417 | `split('_')[2]` succeeds iff the data has at least two `_`, and the piece contains no `_`. |
| Tokens.ThirdPieceOfToken | meal_bot.py:445 | The week or day inside a `menu_week_`, `menu_day_`, `edituser_week_` or `edituser_day_` button comes back unchanged. |
| Tokens.ParseDelete | meal_bot.py:526-529 | Succeeds iff there are at least four pieces, and raises IndexError otherwise. |
| Tokens.ParseDeleteToken | meal_bot.py:526-529 | A `delete_{type}_{w}_{d}` button parses back to its list, week and day. |
| Tokens.ParseConfirmDelete | meal_bot.py:558-562 | Fewer than six pieces raise IndexError. Otherwise it fails iff `int(parts[5])` fails, and the error is ValueError. |
| Tokens.ConfirmTokenPieces | meal_bot.py:542 | A `confirm_delete_{type}_{w}_{d}_{idx}` button splits into exactly its six pieces. |
| Tokens.ParseConfirmDeleteToken | meal_bot.py:558-562 | Parsing a confirm-delete button gives back its list, week, day and index exactly. |
| Tokens.ParseSet | meal_bot.py:785-789 | Succeeds iff there are at least three pieces, and raises IndexError otherwise. |
| Tokens.ParseSetToken | meal_bot.py:785-789 | Parsing `setmeal_{w}_{d}_{item}` or `setdessert_{w}_{d}_{item}` gives back the kind, week, day and item exactly, even when the item contains `_`. |
| Tokens.EditUserNameAsWritten | meal_bot.py:623 | `split('_')[1]` succeeds iff the data contains `_`. |
| Tokens.EditUserNameAsWrittenNoSep | meal_bot.py:623 | For usernames without `_`, `split('_')[1]` reads back the username. |
| Tokens.EditUserNameAsWrittenTruncates | meal_bot.py:623 | The button of user `ali_reza` selects `ali`. The joined reading gives `ali_reza`. |
| Tokens.EditUserNameRoundTrip | meal_bot.py:599 | Reading everything after the first `_` of `edituser_{username}` gives back the whole username. |
| Tokens.CancelUserButton | meal_bot.py:599-602 | The button of a user named `cancel` is the cancel button. |
| PyText.TrimStart | meal_bot.py:175 | The result is a suffix of the input, everything cut off is whitespace, and the result does not start with whitespace. |
| PyText.TrimEnd | meal_bot.py:175 | The result is a prefix of the input, everything cut off is whitespace, and the result does not end with whitespace. |
| PyText.StripIsSlice | meal_bot.py:175 | `strip()` keeps one slice, with only whitespace outside it, and the slice neither starts nor ends with whitespace. |
| PyText.StripUnchanged | meal_bot.py:508 | A text without surrounding whitespace is its own `strip()`. |
| PyText.RemoveAllLeading | meal_bot.py:508 | `replace` drops a leading occurrence and goes on after it. |
| PyText.RemoveAllNoOccurrence | meal_bot.py:508 | Where the prefix does not occur, `replace` changes nothing. |
| PyText.Split | meal_bot.py:526 | `split` gives one more piece than there are separators. |
| PyText.SplitPiecesHaveNoSep | meal_bot.py:526 | No piece of a split contains the separator. |
| PyText.JoinSplit | meal_bot.py:789 | Joining the pieces of a split gives back the string. |
| PyText.SplitConcat | meal_bot.py:785 | Splitting `a + '_' + b` gives the pieces of `a` followed by the pieces of `b`. |
| PyText.SplitNoSep | meal_bot.py:785 | A string without the separator splits into itself. |
| PyText.ParseInt | meal_bot.py:562 | When `int()` fails, the error is ValueError. |
| PyText.ParseNatToString | meal_bot.py:562 | `int(str(n)) == n` for every natural n. |
| Conversation.StateNumberInjective | meal_bot.py:23-26 | The thirteen state constants are distinct. |
| Conversation.RouteFromFirstMatch | meal_bot.py:1108-1116 | An update reaches the first registered conversation that accepts it. When none does, text goes to `handle_text` and anything else is dropped. |
| Conversation.StateHandlerAccepts | meal_bot.py:1023-1105 | A handler picked from a state's table accepts the update and is not an entry point. |
| Conversation.StateHandlerReturns | meal_bot.py:1023-1105 | A handler picked from a state's table returns only states of the same conversation. |
| Conversation.FlowHandlerSound | meal_bot.py:1023-1105 | A conversation's chosen handler accepts the update, is an entry point iff the conversation is inactive, and returns only states of its own table. |
| Conversation.RouteSound | meal_bot.py:1108-1116 | The same holds for the handler an update is routed to. |
| Conversation.Step | meal_bot.py:1023-1105 | A returned state makes it the conversation's state, END closes the conversation, and an exception leaves the conversation as it was. |
| Conversation.PasswordStepsInOrder | meal_bot.py:1097-1104 | In the password change, CHANGE_PASSWORD_CONFIRM is reached only from CHANGE_PASSWORD_NEW by `change_password_new`. CHANGE_PASSWORD_NEW is reached from CHANGE_PASSWORD_CURRENT only by `change_password_current`. The entry point reaches neither. |
| Conversation.StepKeepsValid | meal_bot.py:1023-1105 | Advancing by a state of the conversation's own table keeps every open conversation in one of its own states. |
| Conversation.TextStateCapturesText | meal_bot.py:1108-1116 | While any conversation waits for text, every text message goes to a conversation and never to `handle_text`. That includes the logout button and item messages. |
| Conversation.CancelGoesToFirstActive | meal_bot.py:1023-1105 | `/cancel` reaches the first open conversation in registration order, and is dropped when no conversation is open. |
| Conversation.DeadButtons | meal_bot.py:1044-1060 | No table accepts `menu_back` or `ignore`, so those buttons are dropped. |
| Conversation.GuardedBranchesUnreachable | meal_bot.py:437-445 | Routing never passes `menu_back` to `menu_select_day`, `menu_cancel` to `menu_select_week`, `edituser_done` to `edit_user_select_day` or `ignore` to `set_user_meal_dessert`. The branches that test for those data are dead. |
| Bot.LogActorNamesBoth | meal_bot.py:831-839 | An administrator's entry starts with the administrator's name and contains the target's name. Anyone else's entry is the target's name. |
| Bot.RequestColumn | meal_bot.py:819-821 | The column is the slot column of `int(week)` and `int(day)`. Either `int` failing raises ValueError. |
| Bot.RequestColumnOfCatalogKey | meal_bot.py:819-821 | For a catalog day the column exists and lies in 2..41. |
| Bot.AdminEntry | meal_bot.py:285-287 | The add-user, manage-menu and edit-meals entries start iff the sender has an administrator session, and END otherwise. |
| Bot.ChangePasswordStart | meal_bot.py:879-881 | The password change starts iff the sender is logged in. |
| Bot.DeleteMenuItem | meal_bot.py:521-551 | Listing items to delete stays in SELECT_DAY, also for an empty list. A missing day raises KeyError, a short token IndexError. |
| Bot.CheckCurrentPassword | meal_bot.py:890-907 | Goes on to the new password iff the text hashes to the stored password. A wrong password asks again. No session raises KeyError. |
| Bot.AddItem | meal_bot.py:503-514 | The chosen list of the chosen day gains the item name at its end. The other list and every other day are unchanged. A missing day raises KeyError. |
| Bot.PopItem | meal_bot.py:564-568 | The chosen list loses exactly the item at the index and keeps the rest in order, as a permutation minus that item. The other list and every other day are unchanged. A missing day raises KeyError; an index out of range raises IndexError. |
| Bot.MealCell | meal_bot.py:813-826 | The written cell is in the target user's row at the slot's column. No row raises TypeError. A bad week or day raises ValueError. |
| Bot.MealCellOfCatalogKey | meal_bot.py:813-826 | For a catalog day and a user with a row, the cell exists and lies in 2..41. |
| Bot.MealBot.constructor | meal_bot.py:35-67 | Fresh files: the seeded registry, the empty catalog, an empty log and the header-only sheet. |
| Bot.MealBot.LoginUsername | meal_bot.py:173-177 | Keeps the stripped username and asks for the password. |
| Bot.MealBot.LoginPassword | meal_bot.py:179-215 | When the username exists and its hash matches, the user is bound to the chat account and a session with the user's role and name is created, then END. Otherwise nothing changes and the flow is back at LOGIN_USERNAME. |
| Bot.MealBot.AddUserUsername | meal_bot.py:297-310 | An existing username keeps the flow at ADD_USER_USERNAME with nothing stored. Otherwise the username is kept. |
| Bot.MealBot.AddUserFullname | meal_bot.py:312-316 | Keeps the stripped full name. |
| Bot.MealBot.AddUserPassword | meal_bot.py:318-362 | A password shorter than 4 stays at ADD_USER_PASSWORD and changes nothing. Otherwise the user is stored as a non-administrator without a chat account, the full name goes into the first empty name row from row 3, and the data is cleared. |
| Bot.MealBot.MenuSelectWeek | meal_bot.py:408-435 | Keeps the week of the button and goes to SELECT_DAY. |
| Bot.MealBot.MenuSelectDay | meal_bot.py:437-484 | Keeps the day and stays in SELECT_DAY. No selected week, or a week and day missing from the catalog, raises KeyError. `menu_back` would hand a callback to a message handler and raise AttributeError. |
| Bot.MealBot.HandleMenuMessage | meal_bot.py:486-519 | An administrator with a selected week and day adds the prefixed item, as `AddItem` states. A non-administrator, unprefixed text or a missing selection leaves the catalog unchanged. |
| Bot.MealBot.ConfirmDelete | meal_bot.py:553-583 | Pops the item the button names, as `PopItem` states, and selects that week and day again. Any error changes nothing. |
| Bot.MealBot.EditUserSelectUser | meal_bot.py:614-645 | The cancel button ends. Otherwise the stored username is `split('_')[1]` of the button, which cuts a username containing `_` at its first `_`. Data without `_` raises IndexError with nothing stored. A piece that is no registered user is stored and then raises KeyError. Any other piece goes on to EDIT_USER_WEEK. |
| Bot.MealBot.EditUserSelectWeek | meal_bot.py:647-675 | Keeps the week, and fills in the sender's own username when no user was chosen. |
| Bot.MealBot.EditUserSelectDay | meal_bot.py:677-775 | Changes no store. END without a user or a week. A missing day raises KeyError. Otherwise it stays in EDIT_USER_DAY. |
| Bot.MealBot.SetUserMealDessert | meal_bot.py:777-847 | Writes exactly one cell: the meal column for `setmeal`, the one after it for `setdessert`, in the target user's row. It appends exactly one log entry. Missing row or bad column: nothing written. |
| Bot.MealBot.WriteMealChoice | meal_bot.py:808-839 | The cell write and the single log entry of `set_user_meal_dessert`, or no change at all when the cell cannot be found. |
| Bot.MealBot.MyMealsStart | meal_bot.py:849-874 | A logged-in sender edits their own meals. Without a session, END. |
| Bot.MealBot.ChangePasswordNew | meal_bot.py:909-920 | A new password shorter than 4 is asked again. Otherwise it is kept for confirmation. |
| Bot.MealBot.ChangePasswordConfirm | meal_bot.py:922-945 | An equal confirmation rewrites only the logged-in user's hash and clears the data. A different one returns to CHANGE_PASSWORD_NEW with nothing changed. |
| Bot.MealBot.Logout | meal_bot.py:971-978 | Deletes exactly the sender's session. |
| Bot.MealBot.Cancel | meal_bot.py:980-984 | Clears the sender's collected data and ends. |
| Bot.MealBot.HandleText | meal_bot.py:986-1011 | Only the own-meals button, the logout button and an item message change anything. For an item message, an administrator with a selected week and day gets the stripped name appended as `AddItem` states, and a missing day is reported as KeyError. Anyone else, or a sender without a selection, leaves the catalog unchanged. This is the only route by which an item message reaches `handle_menu_message`. |
| Bot.MealBot.RunPassword | meal_bot.py:890-907 | `change_password_current` changes nothing and goes on to CHANGE_PASSWORD_NEW iff the sender is logged in and the text hashes to the stored password. Every handler of the password change returns only states its table allows. |
| Bot.MealBot.RunShared | meal_bot.py:282-295 | The administrator entries end iff the sender has no administrator session, and change nothing. |
| Bot.MealBot.RunHandler | meal_bot.py:1023-1105 | Any handler keeps the invariant and returns only states its table allows. It changes no other user's data or session. `/cancel` changes no store. An administrator entry without an administrator session ends and changes nothing. |
| Bot.MealBot.HandleUpdate | meal_bot.py:1108-1116 | One update goes where the routing sends it. Only the reached conversation of the sender advances, by the handler's result, and the invariant is kept. |
| Bot.MealBot.Advance | meal_bot.py:1023-1105 | Runs the handler and moves the sender's conversation on by its result. No other user's conversations change. |

## Left out

- The chat transport is not modelled: replies, message edits and deletions, `query.answer`, keyboards, `run_polling` and everything asynchronous. The model runs one update at a time.
- JSON and spreadsheet I/O are not modelled. The stores are in-memory values that each handler reads afresh.
- Sheet protection is not modelled. `protect_excel`/`unprotect_excel` only toggle a protection flag and provide no mutual exclusion. The path on which unlocking fails (`wb, ws` None) is not modelled, so the sheet write of `add_user_password` always happens.
- Styling, column widths and saving errors are not modelled, and neither is any openpyxl column limit.
- `hash_password` is SHA-256 from a library. It is the parameter `hash`: fixed, but otherwise unknown.
- `datetime.now()` in `log_change` is not modelled. A log entry is its actor string, without the timestamp lines.
- The rendering-only handlers are left out: `view_schedule`, `list_users`, `view_log`, `start`, `show_main_menu`, and the "view program"/"list users"/"change log" branches of `handle_text`, which only reply.
- `login_start`'s own body is left out: it only replies. Its entry into LOGIN_USERNAME is modelled.
- `int()` is modelled only on ASCII digits with an optional sign and surrounding whitespace. Python also accepts other Unicode decimal digits and `_` between digits. Neither can occur inside a piece of a `_`-split token built from the catalog keys.
- Strings are sequences of code points. There is no normalisation and no byte encoding.
- The callback-data length limit of the chat service is not modelled. Tokens are of any length.
- `ConfirmDelete` and `SetUserMealDessert`: the source reassigns `query.data` and re-runs the day view, and the model treats that reassignment as allowed. Where the chat library freezes update objects, the assignment raises after the store was written. The conversation then stays in the same state (SELECT_DAY or EDIT_USER_DAY), so the model differs only in reporting `Goto` instead of `Crash`.
- `EditUserSelectDay` does not model the reply it picks: the "user not in sheet" alert or the item list. That choice changes no state.
- The `edit_day` key is not modelled: it is written but never read.
- `ConfirmDelete` and `DeleteMenuItem` check no session, as in the source. Anyone who holds such a button can delete.
- Users who share a full name share one sheet row, as in the source. The lookup returns the first one.
- Edited messages and updates without a message are not modelled.
- Only one process and one chat per user are modelled. `context.user_data` is keyed by the sender's id.

## Findings

| source | as written | input that shows it | evidently intended | confidence | as-written member | corrected member |
|---|---|---|---|---|---|---|
| meal_bot.py:623 | `username = query.data.split('_')[1]` keeps only the piece after the first `_` | the button `edituser_ali_reza` of user `ali_reza` selects `ali` (KeyError or the wrong user) | read the whole username after the first `_`, as `set_user_meal_dessert` does with `'_'.join(parts[3:])` | not executed | Tokens.EditUserNameAsWrittenTruncates | Tokens.EditUserNameRoundTrip |

`Bot.MealBot.EditUserSelectUser` models the handler as written, with `Tokens.EditUserNameAsWritten`. The corrected reading is `Tokens.EditUserName`, whose round trip `Tokens.EditUserNameRoundTrip` proves.
