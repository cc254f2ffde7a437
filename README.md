# Currency exchange admin: a verified Dafny model

This project models the logic core of a small currency-exchange web application.
Staff maintain buying and selling rate ranges per currency against the UAE dirham (AED).
A watchdog restarts the web service when it looks unhealthy.
A bootstrap migration installs the admin account.

Modules, one per source component:

- `RateModel` (rate_model.dfy): the `Currency` row and its derived properties.
  These are which ranges are set, the to-AED ranges as displayed, and the from-AED ranges.
  A from-AED range inverts the opposite to-AED range, and a zero bound raises ZeroDivisionError.
- `CurrencyAdmin` (currency_admin.dfy): the form validation of `add_currency` and `update_currency`.
  The `currency` table is a `CurrencyTable` object holding a map from id to row.
  Its methods `AddCurrency`, `UpdateCurrency` and `DeleteCurrency` are the three handlers.
  Its invariant `Valid()` says that symbols are unique and upper-case, and that every stored range is well ordered.
- `SocketRecovery` (socket_recovery.dfy): the `SocketRecoveryManager` class.
  The health check and its fixed thresholds are modelled, and so is the recovery-attempt counter.
  Probe results (systemctl, port connect, journalctl, psutil, the restart commands) are inputs.
  A finite run of the daemon loop is modelled as pure functions over a sequence of cycles.
- `Migrations` (migrations.dfy): migration 001, an upsert of the configured admin user.
  Password hashing is abstracted as a salted hash and a matching check.
- `Text` (text.dfy) models the Python string built-ins the core uses.
  These are `in`, `str.count`, `str.join`, `str.strip` and `str.upper`.
  `Wrappers` (wrappers.dfy) holds `Option` and `Result`.

Two behaviours of the code are worth knowing:

- Zero bounds are not rejected at write time (app.py:180-204), although both from-AED displays divide by them (app.py:101-102, 111-112).
  `add_currency` and `update_currency` pass a range such as (0, 5) through validation and commit the row (app.py:222, 291).
  That row makes `selling_from_aed_display` raise ZeroDivisionError (`CurrencyAdmin.ZeroMinimumIsAccepted`).
  Both handlers read that property right after the commit, to build the `socketio.emit` payload (app.py:239-240, 308-309).
  So the request ends in a server error with the row already written, and the success message is never shown.
  `index` (app.py:116-139) reads both from-AED properties of every row, so from then on the public page fails too.
- The spread check is written `min_buying_rate and min_selling_rate and max_buying_rate >= min_selling_rate` (app.py:202),
  and the same test on the row's columns in `update_currency` (app.py:286-287).
  Under Python truthiness a 0.0 minimum counts as absent, so a zero minimum also switches that check off.
  Otherwise the rule is strict: the buying maximum must be below the selling minimum.

## Model

| member | source | states |
|---|---|---|
| `RateModel.Currency.HasBuyingRange` | app.py:67-70 | true exactly when both buying bounds are present, i.e. neither column is NULL |
| `RateModel.Currency.HasSellingRange` | app.py:72-75 | true exactly when both selling bounds are present, i.e. neither column is NULL |
| `RateModel.Currency.HasExchangeRates` | app.py:77-80 | true exactly when the buying or the selling display shows a range |
| `RateModel.Currency.BuyingRateDisplay` | app.py:82-87 | "Not set" exactly when a buying bound is NULL (`has_buying_range` is false), otherwise the stored minimum then maximum |
| `RateModel.Currency.SellingRateDisplay` | app.py:89-94 | "Not set" exactly when a selling bound is NULL (`has_selling_range` is false), otherwise the stored minimum then maximum |
| `RateModel.Currency.BuyingFromAedDisplay` | app.py:96-104 | "Not set" exactly without a selling range; raises exactly when a selling bound is zero; otherwise the low end times the selling max is 1 and the high end times the selling min is 1 |
| `RateModel.Currency.SellingFromAedDisplay` | app.py:106-114 | the same for the buying range: "Not set" without it, a fault on a zero bound, otherwise the reciprocals of max then min |
| `RateModel.InvertRange` | app.py:101-103 | fails exactly when a bound is zero; otherwise returns the reciprocals of max and min, in that order |
| `RateModel.InvertedRangeAscendingIffSameSign` | app.py:99-103 | for min < max with no zero bound, the inverted range is ascending exactly when both bounds have the same sign |
| `RateModel.InvertRangeRoundTrip` | app.py:109-113 | inverting the displayed from-AED range again gives back the stored to-AED range |
| `RateModel.FromAedInvertsOppositeRange` | app.py:96-114 | buying-from-AED inverts the selling range, selling-from-AED inverts the buying range, and inverting buying-from-AED back gives the selling display |
| `CurrencyAdmin.ParsePair` | app.py:180-187 | a range is read only when both fields are non-empty; a non-numeric field is a ValueError; min >= max is refused; an accepted range has min < max and carries the two numbers |
| `CurrencyAdmin.ValidateRates` | app.py:177-204 | refuses an inverted buying range first, then an inverted selling range, then buying max >= selling min when both minimums are non-zero; a non-numeric field of a range that is read is a ValueError; a form is accepted exactly when some well-ordered ranges it spells out respect the spread rule, and the accepted result is such ranges |
| `CurrencyAdmin.NotesValue` | app.py:175 | notes become NULL exactly when the field is all whitespace; otherwise the stored text is the submitted text with a whitespace-only prefix and suffix cut off, and it has no whitespace at either end |
| `CurrencyAdmin.AcceptedRatesAreStored` | app.py:212-220 | a validated form gives a row that satisfies the table invariant, with a range set exactly when both its fields were non-empty |
| `CurrencyAdmin.StoredPositiveRangesInvertAscending` | app.py:96-114 | a stored range with a positive minimum is displayed inverted without a fault and in ascending order |
| `CurrencyAdmin.ZeroMinimumIsAccepted` | app.py:180-204 | a form with a zero buying minimum passes validation although buying max >= selling min, and its row's selling-from-AED display raises |
| `CurrencyAdmin.CurrencyTable.AddCurrency` | app.py:170-222 | each validation error is returned with no row added; a taken upper-cased symbol is refused; otherwise exactly one row is inserted under a fresh id; the invariant is kept |
| `CurrencyAdmin.CurrencyTable.UpdateCurrency` | app.py:246-291 | unknown id gives NotFound; any failed check commits nothing; an existing id with a form that passes validation always succeeds; success replaces name, notes and both ranges (NULL when a field is empty); ids and symbols never change |
| `CurrencyAdmin.CurrencyTable.DeleteCurrency` | app.py:315-326 | unknown id gives NotFound; otherwise exactly the row with that id is removed and its symbol returned |
| `Text.CountFitsInText` | socket_recovery.py:78-80 | non-overlapping occurrences counted by `str.count` fit in the text: count times pattern length is at most the text length |
| `Text.CountZeroIffAbsent` | socket_recovery.py:78-80 | `str.count` is zero exactly when the pattern does not occur in the text |
| `Text.JoinKeepsOccurrence` | socket_recovery.py:101 | text found in one argument is found in the space-joined command line |
| `Text.StripEmptyIffAllSpace` | app.py:175 | `strip()` is a slice of the text whose cut-off prefix and suffix are all whitespace; it is empty exactly when the text is all whitespace, and otherwise has no whitespace at either end |
| `Text.UpperIsUpper` | app.py:174 | an upper-cased symbol has no lower-case letter, and upper-casing it again changes nothing |
| `SocketRecovery.SocketErrorCount` | socket_recovery.py:62-93 | the socket error count is zero exactly when the log is unreadable or holds none of the three messages |
| `SocketRecovery.SocketErrorCountBounded` | socket_recovery.py:78-80 | the messages are counted without overlap, so the count times the shortest message length is at most three times the log length |
| `SocketRecovery.ExceedsMemoryInBytes` | socket_recovery.py:113-117 | the limit rss / 1024 / 1024 > 500 means more than 524288000 bytes |
| `SocketRecovery.ArgumentMakesAppWorker` | socket_recovery.py:99-104 | a gunicorn process with an argument mentioning currency-exchange is one of the app's workers |
| `SocketRecovery.HealthIssues` | socket_recovery.py:180-203 | each issue is present exactly when its check fails; socket errors only when the count is strictly above the limit, with that count; issues appear in the fixed check order |
| `SocketRecovery.CycleStep` | socket_recovery.py:205-222 | a restart happens exactly when there are issues and the counter is below the limit; the counter goes up by one before it and is reset only by a verified restart; it stays within the limit |
| `SocketRecovery.AttemptsStayBounded` | socket_recovery.py:215-222 | from a counter within the limit, no sequence of cycles takes it past the limit |
| `SocketRecovery.ExhaustedNeverRestarts` | socket_recovery.py:215-219 | once the counter reaches the limit, no later cycle restarts the service and the counter never changes |
| `SocketRecovery.RestartsBoundedWithoutSuccess` | socket_recovery.py:215-222 | with no verified restart, the cycles restart at most limit minus counter times, and the counter rises by one per restart |
| `SocketRecovery.SocketRecoveryManager.constructor` | socket_recovery.py:30-36 | the counter starts at 0 within the limit; the constants are those of the source |
| `SocketRecovery.SocketRecoveryManager.CheckProcessHealth` | socket_recovery.py:95-131 | false when the listing fails or an entry raises, when no app worker exists, or when a worker is over 500 MB or 1000 descriptors (or one of them is unreadable); true otherwise |
| `SocketRecovery.SocketRecoveryManager.PerformHealthCheck` | socket_recovery.py:180-203 | returns the issues of `HealthIssues` with the manager's limit of 5; the list is empty exactly when every check passes, the socket error count being at most that limit |
| `SocketRecovery.SocketRecoveryManager.RestartService` | socket_recovery.py:133-178 | succeeds exactly when the service is active and the port answers after the restart; only then is the counter reset to 0, otherwise it is unchanged |
| `SocketRecovery.SocketRecoveryManager.RunRecoveryCycle` | socket_recovery.py:205-222 | no issues gives true with the counter unchanged; an exhausted counter gives false without a restart or increment; otherwise the cycle follows `CycleStep`; the counter stays within the limit |
| `Migrations.GeneratePasswordHash` | app.py:31-32 | the hash keeps the salt it was drawn with; under one salt, different passwords give different hashes |
| `Migrations.CheckPasswordHash` | app.py:34-35 | a password checks exactly when the hash is the one that password gives under the hash's own salt |
| `Migrations.HashChecksItsPassword` | app.py:31-35 | a hash generated from a password checks against exactly that password, whatever the salt |
| `Migrations.ConfiguredCredentials` | migrations.py:21-22 | the username and password come from the environment, defaulting to "admin" and "admin123" when unset |
| `Migrations.UpsertAdmin` | migrations.py:24-40 | afterwards the configured user exists, keeps its username, and its password checks; only that key may be added and no other user changes |
| `Migrations.UpsertIdempotent` | migrations.py:19-40 | a second run of the upsert, with any salt, leaves the table as the first run left it |
| `Migrations.AdminUserTable.CreateAdminUser` | migrations.py:19-40 | an absent user is created with a hash of the password; a user whose password does not check gets only its hash replaced; otherwise nothing changes |
| `Migrations.RunTwice` | migrations.py:19-40 | two runs in a row leave the table as one run does; the second run reports that the user is already current |

## Left out

- Flask routing, templates, `flash`, `redirect`, flask_login sessions and the SocketIO `emit` calls are not modelled. Each handler is reduced to its accept or reject outcome and its effect on the table.
- `CurrencyAdmin.CurrencyTable.AddCurrency`: the emit payload built after the commit is not modelled. A committed row with a zero bound makes the handler raise ZeroDivisionError while building it, so the request ends in a server error although the row is written; the model returns `Ok` for that form.
- `CurrencyAdmin.CurrencyTable.UpdateCurrency`: likewise, a committed row with a zero bound makes the handler raise ZeroDivisionError while building its emit payload, so the request ends in a server error although the update is written; the model returns `Ok` for that form.
- The read-only views (`index`, `dashboard`, `from_aed`, `to_aed`, `get_currency_notes`) are not modelled. They only render the derived properties that `RateModel` models.
- The SQLAlchemy session and commit are not modelled. The table is an in-memory map. Edits made in place on a row that is then not committed are modelled as no change, because the session is rolled back when the request ends.
- `UpdateCurrency` replaces the row value where the source assigns the ORM object's fields in place. No other reference to that object is observable within a request.
- `CurrencyAdmin.CurrencyTable.AddCurrency` allocates ids from a counter. The database picks the id; SQLite may reuse the largest deleted id, which the model does not capture.
- `CurrencyAdmin.CurrencyTable.AddCurrency` does not model the database's own unique and length constraints on `symbol`, nor the race between the symbol check and the insert under concurrent requests.
- The model does not cover a missing `name` field (app.py:173, 250) or, in `add_currency`, a missing `symbol` field (app.py:174). Either raises KeyError before any check, which Flask answers with a 400 error; the model takes both as given.
- Floats are modelled as reals. NaN and infinity, which `float()` accepts, are not modelled, and neither is rounding. The `:.6f` display strings are replaced by the pair of numbers they show.
- `Text.UpperIsUpper`: `Upper` maps only the ASCII letters. Python's `str.upper` also maps other Unicode letters, some to several characters (e.g. "ß" to "SS").
- Every probe in socket_recovery.py is an input: subprocess, systemctl, journalctl, psutil and socket. Sleeps, `pkill`, the removal of socket files and logging are not modelled.
- The infinite `run_daemon` loop is modelled only as finite sequences of cycles (`AttemptsAfter`, `RestartsDuring`). Its interrupt handling and the command-line `main` are not modelled.
- `SocketRecovery.SocketRecoveryManager.CheckProcessHealth` takes the process listing as a snapshot. A process that vanishes or is denied during iteration is not modelled; in the source that case is caught and skipped.
- Password hashing is abstracted as a salted hash that checks exactly its own password, i.e. without collisions. Werkzeug's algorithm is not modelled.
- The `created_at` timestamps are not modelled.
- `load_sample_data` (migrations.py:42-56) is not modelled. It builds `Currency` with a `rate_to_aed` argument that the model in app.py does not define, so it fails as written.
- `run_migrations`' `db.create_all` and its printing are not modelled.
- historical_migrations.py and create_note_images_table.py are not part of this model. They are database-specific DDL guarded by a column- or table-presence check.
- gunicorn.conf.py (server configuration), test_socket_fixes.py and test_local.py (HTTP and process integration scripts) are not part of this model.
