# Delivery Slip Portal — Dafny model

This project models the bookkeeping of the Delivery Slip Submission Portal. It
is a Streamlit app in which a branch office records delivery slips (cash or
online receipts) and an admin manages branches, riders and change requests.
The hosted store is modelled as three in-memory tables held by the class
`Tables.PortalState`:

- `branches`: code, name, riders;
- `slips`: branch code, week, type, quantity, rider, ids, image fingerprint,
  commission, timestamp;
- `requests`: timestamp, status, description.

The same class also holds the admin session's `pending_delete_branch`.

Each button press is a method on that state, and each method states the
table contents it leaves behind:

- "Submit Slip" (`BranchPanel.SubmitSlip`) computes the commission and one id
  per unit of quantity. It refuses a missing image. It computes the image
  fingerprint and refuses it when a stored slip already carries it. Otherwise
  it appends exactly one slip.
- This check-then-insert keeps the central invariant: no two slips share an
  image fingerprint (`Tables.UniqueImages`, part of `PortalState.Valid`).
- The admin actions (`AdminPanel`) are:
  - adding a branch, with an upper-cased, unique code;
  - adding and removing riders, which keep each rider list free of duplicates;
  - deleting a branch in two steps through `pending_delete_branch`;
  - submitting a change request.
- The entered code is routed to a panel by `App.RouteFor`, which uses
  `Utils.ValidateBranchCode` to check the code.

The image fingerprint is `md5(bytes).hexdigest()`. MD5 is the constant
field `md5` of the state, given to its constructor: any deterministic map
from bytes to 16 bytes, the same for every upload. The hex rendering
is modelled exactly. Timestamps are opaque strings passed in by the caller.
The form's current values are parameters of each method:

- the week chosen, as an index into the twelve options;
- the slip type;
- the quantity;
- the uploaded bytes, if any;
- the rider chosen;
- the text typed into each id field, as a map from widget key to text.

Files: `seqs.dfy` (modules `Wrappers`, `Seqs`), `text.dfy` (`Text`),
`tables.dfy` (`Tables`), `utils.dfy` (`Digests`, `Utils`), `branch.dfy` (`BranchPanel`),
`admin.dfy` (`AdminPanel`), `app.dfy` (`App`).

The weeks are the fixed labels "Week 1" to "Week 12" (modules/branch.py:16),
and each slip is inserted on its own (modules/branch.py:57).

## Model

| member | source | states |
|---|---|---|
| `Text.Upper` | modules/utils.py:5 | `str.upper()` on ASCII: same length, each a-z letter becomes its A-Z letter, other characters stay, and the result has no lower-case letter |
| `Text.UpperIdempotent` | app.py:12 | upper-casing an already upper-cased code changes nothing |
| `Text.Strip` | modules/admin.py:18-19 | `str.strip()` on ASCII: the result is an infix of the input with only whitespace around it, it neither starts nor ends with whitespace, and it is empty exactly when the input is blank |
| `Text.StripIdempotent` | modules/admin.py:166-170 | the stored description is already in stripped form: stripping it again changes nothing |
| `Text.Decimal` | modules/branch.py:16 | `str(n)` for the f-strings: a non-empty string of decimal digits with no leading zero |
| `Text.DecimalRoundTrip` | modules/branch.py:28 | reading back the decimal rendering of `n` gives `n`, so different numbers give different labels and keys |
| `Utils.HexEncode` | modules/utils.py:9 | `hexdigest()` rendering: two lower-case hex digits per byte |
| `Utils.HexRoundTrip` | modules/utils.py:9 | decoding the hex rendering gives back the digest bytes |
| `Utils.HashImage` | modules/utils.py:7-9 | the fingerprint is a 32-character lower-case hexadecimal string |
| `Utils.FingerprintMatchesDigest` | modules/utils.py:7-9 | the fingerprint is deterministic, and two images get the same fingerprint exactly when their MD5 digests agree |
| `Utils.StoredCodes` | modules/utils.py:4 | one code per stored branch, and a string is among them exactly when some branch has it as its code |
| `Utils.ValidateBranchCode` | modules/utils.py:1-5 | true exactly when some stored branch has the upper-cased code |
| `Utils.ValidateIgnoresCase` | modules/utils.py:5 | `validate(c) == validate(upper(c))` |
| `Utils.NothingValidatesWithoutBranches` | modules/utils.py:3-5 | with no stored branch, no code validates |
| `Utils.ValidateMeansFound` | modules/branch.py:8 | a code validates exactly when the branch panel's lookup of the upper-cased code finds a row |
| `Tables.SlipType.Label` | modules/branch.py:18 | the stored type is "Online Slip" exactly for online slips and "Cash Slip" exactly for cash slips |
| `Tables.FindBranch` | modules/admin.py:116-125 | the `.eq("code", c).single()` lookup returns a stored branch with that code, and returns nothing exactly when no branch has it |
| `Tables.SlipsWithImage` | modules/branch.py:41 | the duplicate query returns slips of the table, and exactly those whose fingerprint is the given one |
| `Tables.SlipsOfBranch` | modules/admin.py:63-69 | the linked-slips query returns slips of the table, and exactly those whose branch code is the given one |
| `Tables.SlipsNotOfBranch` | modules/admin.py:96-98 | the cascade delete leaves slips of the table, and exactly those whose branch code is not the given one |
| `Tables.BranchesWithCode` | modules/admin.py:22-28 | the existence check returns branches of the table, and exactly those with the given code |
| `Tables.BranchesExcept` | modules/admin.py:78-83 | deleting a branch leaves branches of the table, and exactly those without the given code (also the branch delete at modules/admin.py:99-101) |
| `Tables.PortalState.Valid` | modules/branch.py:40-44 | the invariant the operations keep: no two slips share an image fingerprint, no two branches share a code, and every code is upper-case |
| `Tables.SetRiders` | modules/admin.py:138-140 | the rider update keeps every branch's code and name and the number of branches |
| `Tables.AppendFreshSlip` | modules/branch.py:40-57 | appending a slip whose fingerprint no stored slip has keeps fingerprints unique |
| `Tables.CascadeSlips` | modules/admin.py:96-98 | deleting a branch's slips leaves none of its slips and removes exactly as many slips as were linked. Every other branch's slips stay, in table order (deleting from a concatenation deletes from each part), and fingerprints stay unique |
| `Tables.DeleteBranchRows` | modules/admin.py:99-101 | deleting a branch row leaves no branch with that code and keeps every other branch, in table order (deleting from a concatenation deletes from each part). Codes stay unique and upper-case, and rider lists stay free of duplicates |
| `Tables.AppendFreshBranch` | modules/admin.py:22-43 | appending a well-formed branch whose code is not stored keeps the branch table well formed |
| `Tables.SetRidersSpec` | modules/admin.py:138-140 | writing a duplicate-free rider list keeps the branch table well formed. A later lookup of that code sees the new list, and lookups of other codes are unchanged |
| `BranchPanel.Weeks` | modules/branch.py:16 | there are twelve week options |
| `BranchPanel.WeeksAreWeek1ToWeek12` | modules/branch.py:16-17 | the week options are exactly "Week 1" to "Week 12", in order |
| `BranchPanel.Commission` | modules/branch.py:33 | commission is `qty * 50` for an online slip and `qty * 25` for a cash slip |
| `BranchPanel.IdKey` | modules/branch.py:28-31 | the widget key of an id field starts with `tid_` exactly for online slips and with `sid_` exactly for cash slips, followed by decimal digits whose value is the field's index |
| `BranchPanel.FieldValue` | modules/branch.py:28-31 | a text field returns the text entered under its key, and "" when nothing was entered |
| `BranchPanel.IdKeysDistinct` | modules/branch.py:26-31 | every id field has its own widget key, and online and cash slips read separate fields |
| `BranchPanel.BuildIds` | modules/branch.py:25-31 | the ids list has exactly `qty` entries; entry `i` is the text under key `tid_i` (online) or `sid_i` (cash), or "" when none was typed |
| `BranchPanel.ViewBranch` | modules/branch.py:8-22 | with no branch for the upper-cased code, the name is "Unknown Branch" and there are no riders. Otherwise it shows the name and riders of a stored branch with that code |
| `BranchPanel.SubmitSlip` | modules/branch.py:36-57 | with no image: `NoImage`, slips unchanged. With a fingerprint some stored slip has: `DuplicateImage`, slips unchanged. Otherwise: `Submitted`, prior slips unchanged, and one slip appended with the upper-cased code, the chosen week, type, quantity and rider, the `qty` ids, the fingerprint, the commission and the timestamp. The fingerprint uses the session's digest function `PortalState.md5`. Fingerprints stay unique, and the other tables and the pending deletion are unchanged |
| `BranchPanel.SubmitSameImageTwice` | modules/branch.py:40-44 | within one session, submitting the same image a second time is refused as a duplicate, whatever the first submission's outcome |
| `BranchPanel.FormSlipFacts` | modules/branch.py:16-33 | a submitted slip's week is one of "Week 1" to "Week 12", and its commission is its number of ids times the type's rate |
| `AdminPanel.AddBranch` | modules/admin.py:17-52 | a blank stripped code or name gives `MissingInput` and no change. An upper-cased code already stored gives `AlreadyExists` and no change. Otherwise exactly one branch is appended with the upper-cased code, the stripped name and no riders. Codes stay unique and upper-case |
| `AdminPanel.CheckBranchAsWritten` | modules/admin.py:59-76 | as written, a blank code reaches `if slips:` with `slips` unbound, and only a blank code does; every other code proceeds to arm the confirmation or delete the row |
| `AdminPanel.CheckBranchStep` | modules/admin.py:59-88 | a blank code is only an error. Linked slips arm the confirmation exactly when some slip has the upper-cased code. For a non-blank code the decision is the written one |
| `AdminPanel.CheckBranch` | modules/admin.py:57-89 | with linked slips: nothing is deleted and the pending deletion becomes the upper-cased code. With none: that branch row is deleted and nothing is pending. Slips and requests are unchanged |
| `AdminPanel.ConfirmDelete` | modules/admin.py:92-109 | with a pending code, it deletes every slip of that code, then that branch. If the slip delete raises, nothing changes. If the branch delete raises, the slips are already gone. The pending deletion is cleared in every case |
| `AdminPanel.RemoveAll` | modules/admin.py:137 | the updated rider list is no longer than the old one, and holds exactly the old names other than the removed rider |
| `AdminPanel.RemoveAllSpec` | modules/admin.py:137 | removing a rider drops every occurrence of that name. Every other name is kept as often as it occurred and in its order, and a duplicate-free list stays duplicate-free |
| `AdminPanel.RemoveRider` | modules/admin.py:114-142 | the branch of the stripped, upper-cased code gets its old rider list without that name. Nothing else changes. A blank code gives `NoBranchCode` (the panel shows nothing) and an unknown branch `BranchNotFound`, both with no change. Rider lists stay duplicate-free |
| `AdminPanel.AddRider` | modules/admin.py:146-159 | a blank code gives `NoBranchCode` and an unknown branch `BranchNotFound`, with no change. A blank name or a name already listed leaves the riders unchanged. Otherwise the stripped name is appended at the end. Rider lists stay duplicate-free |
| `AdminPanel.SubmitRequest` | modules/admin.py:164-175 | a blank description inserts nothing. Otherwise exactly one request is appended with status "Pending" and the stripped description |
| `App.RouteFor` | app.py:11-17 | an empty code opens nothing. A code whose upper-case is "ADMIN2024" opens the admin panel, even when a branch has that code. Another code that some branch has, ignoring case, opens the branch panel with the raw code. Every other code is an error |
| `App.RouteIgnoresCase` | app.py:12-15 | the upper-cased code opens the same kind of panel, for the same branch |

## Left out

- Streamlit rendering (headers, tabs, columns, dataframes, messages, `st.rerun`): only the state change each button causes is modelled.
- The Supabase client and its query builder: replaced by the in-memory tables of `Tables`. Its network behaviour is not modelled.
- Store failures other than those of "Confirm Delete" are not modelled:
  - the `response.error` branch of "Check Branch" (modules/admin.py:84);
  - the `except` and empty-`response.data` branches of "Add Branch" (modules/admin.py:44-50);
  - `.single()` raising on zero or several matches; a missing branch is modelled as "not found".
- `Utils.HashImage`: MD5 (RFC 1321) itself is not modelled. It is the session's digest function `PortalState.md5`, fixed when the state is created, so collision resistance is not claimed; only the hex rendering is proved.
- `datetime.now()`: timestamps are opaque parameters.
- Races between sessions on the same fingerprint: the model is sequential, so uniqueness of fingerprints holds only for a sequential run.
- `Text.Upper`, `Text.Strip`: Unicode case mapping and Unicode whitespace are not modelled. Characters outside ASCII are left as they are.
- "Check Branch" with a blank code: the written code crashes (see Findings). `AdminPanel.CheckBranch` uses the intended behaviour: an error and no change.
- Widget guarantees appear as preconditions of `BranchPanel.SubmitSlip`:
  - the quantity is at least 1 (`number_input(min_value=1, step=1)`);
  - the week is one of the twelve options;
  - the rider is one of the branch's riders, or none when it has none.
- The ids and commission are computed on every rerun in the source. The model computes them when "Submit Slip" is pressed, which stores the same values.
- Rows with a missing column (`branch.get("riders", [])`, `branch_data.get("name")`): every modelled row has all its fields.
- "Confirm Delete" is only shown while a deletion is pending. The model also accepts a press with nothing pending, which changes nothing.

## Findings

| source | as written | input that shows it | evidently intended | confidence | as-written member | corrected member |
|---|---|---|---|---|---|---|
| modules/admin.py:59-71 | for a blank "Branch Code to Remove", the error branch never assigns `slips`, and `if slips:` then reads it (UnboundLocalError) | pressing "Check Branch" with the code field empty or blank | show the error and change nothing | high (reasoned from the code; not executed) | `AdminPanel.CheckBranchAsWritten` (with `AdminPanel.BlankCheckReadsUnboundSlips`) | `AdminPanel.CheckBranchStep` (used by `AdminPanel.CheckBranch`) |
