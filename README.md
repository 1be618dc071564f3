# Licensing gate of the xlsm license server

This project models the licensing gate of a small Flask service. The service
hands out machine-locked licenses for one spreadsheet program, `xlsm_tool`.

- A client posts a machine id and a program id.
- The server looks the machine id up in three JSON lists: allowed, pending and rejected.
- An unknown id is queued in pending.
- A rejected id is refused.
- An allowed id gets a license file. The file holds the id and a password derived from the id.
- An allowed id also gets a personal copy of the spreadsheet template, made once, and four download URLs.
- An operator moves ids out of pending with approve and reject.

The model is split into five modules:

- `Lists` (lists.dfy): the list operations the server uses. These are membership, append-if-absent and Python's `list.remove` (first occurrence only).
- `Credentials` (credentials.dfy): the password. It is 12345 plus the code points of the id, in decimal, after `PWD`. The source's loop is the method `GeneratePassword`. It is proved equal to the function `Password`.
- `Paths` (paths.dfy): the license file path and the spreadsheet name of a machine.
- `LicenseServer` (license_server.dfy): the request, answer and state datatypes, and the specification functions `Generate`, `Approve` and `Reject` over a `Store` value. It also holds the class `Server`. Its fields are the three lists, the license files (a map from path to content), the spreadsheet files that exist (a set of names) and a ghost log of template copies, which exists only to state that each spreadsheet is copied once. Its methods `GenerateLicense`, `ApproveId` and `RejectId` follow the source step by step. Each method is proved to produce exactly the state and answer of its specification function, and to keep the invariant `Inv`.
- `ServerProperties` (properties.dfy): what the gate guarantees, as lemmas:
  - the order of the checks;
  - what each answer changes;
  - idempotence;
  - what approve and reject do and do not touch;
  - the invariant over any sequence of operations (`Run`).

The invariant `Inv` has four parts:

- no list has a duplicate;
- no pending id is allowed or rejected;
- the template is copied at most once per name, and only for allowed ids;
- every license file belongs to an allowed id and holds that id and its password.

What the code does with the three lists:

- `approve_id` never touches the rejected list (license_server.py:114-124), and the rejected check runs first (license_server.py:53). So approval does not lift a rejection (`ApprovalKeepsRejection`).
- `reject_id` never touches the allowed list (license_server.py:126-136). So approving and then rejecting an id leaves it in both lists, and rejection wins (`AllowedAndRejected`). What does hold is `PendingUndecided`: a pending id is in neither decided list.
- Ids are compared exactly as sent: no trimming and no case folding.

## Model

| member | source | states |
|---|---|---|
| Credentials.GeneratePassword | license_server.py:30-34 | the accumulating loop returns exactly `Password(m)` |
| Credentials.Password | license_server.py:30-34 | the password is "PWD" followed by a canonical decimal numeral |
| Credentials.PasswordNumber | license_server.py:30-34 | the numeral's value is 12345 plus the sum of the code points of the id, so it is at least 12345 |
| Credentials.PasswordsAgreeIffSumsAgree | license_server.py:30-34 | two ids get the same password if and only if their code-point sums agree |
| Credentials.OrdSumAppend | license_server.py:32-33 | the code-point sum of a concatenation is the sum of the parts |
| Credentials.PasswordIgnoresOrder | license_server.py:32-33 | swapping two parts of an id leaves its password unchanged |
| Credentials.Decimal | license_server.py:34 | the rendering of a number is a canonical numeral: digits only, no leading zero |
| Credentials.ParseDecimalOfDecimal | license_server.py:34 | reading back the rendering of n gives n |
| Credentials.DecimalOfParseDecimal | license_server.py:34 | rendering the value of a canonical numeral gives the numeral back |
| Paths.LicensePath | license_server.py:36-37 | the license path is "./licenses/license_" + id + ".txt": prefix, id and suffix are each stated |
| Paths.LicensePathInjective | license_server.py:36-37 | two ids share a license path if and only if they are equal |
| Paths.ArtifactName | license_server.py:69 | the spreadsheet name is "QTY_Network_2025_" + id + ".xlsm": prefix, id and suffix are each stated |
| Paths.ArtifactNameInjective | license_server.py:69 | two ids share a spreadsheet name if and only if they are equal |
| Paths.LicensePathIsNotArtifact | license_server.py:64-71 | a license path never equals a spreadsheet name |
| Lists.AppendIfAbsent | license_server.py:57-58 | the id is present afterwards, no other id is added, the old list is a prefix of the new one, and the list grows by one entry exactly when the id was absent |
| Lists.AppendIfAbsentNoDups | license_server.py:118-119 | a guarded append keeps a list duplicate-free |
| Lists.IndexOf | license_server.py:121 | the index found holds the id, and no earlier position does |
| Lists.RemoveFirst | license_server.py:120-121 | `remove` deletes exactly the first occurrence and keeps the order of the rest |
| Lists.RemoveFirstOthers | license_server.py:132-133 | `remove` keeps the membership of every other id |
| Lists.RemoveFirstNoDups | license_server.py:120-121 | on a duplicate-free list, `remove` leaves no occurrence behind and keeps the list duplicate-free |
| Lists.NoDupsOccursOnce | license_server.py:57-58 | in a duplicate-free list every id occurs once or not at all |
| LicenseServer.StatusCode | license_server.py:44-80 | status 200 if and only if granted, 400 if and only if a field is missing, otherwise 403 |
| LicenseServer.Reason | license_server.py:44-60 | every refusal carries a reason and a grant carries none |
| LicenseServer.SplitAtLastNewlineOfJoin | license_server.py:66 | a text ending in a newline-free tail splits back into its two parts |
| LicenseServer.LicenseTextSplits | license_server.py:63-66 | the license file's content gives back exactly the id and its password, whatever the id contains |
| LicenseServer.Server.constructor | license_server.py:20-24 | the server starts on the lists and files found on disk, with no copy made yet |
| LicenseServer.Server.GenerateLicense | license_server.py:39-80 | the answer and the new state are those of `Generate`, and the invariant is kept |
| LicenseServer.Server.ApproveId | license_server.py:114-124 | the new state is that of `Approve`, and the invariant is kept |
| LicenseServer.Server.RejectId | license_server.py:126-136 | the new state is that of `Reject`, and the invariant is kept |
| LicenseServer.InvPreservedByGenerate | license_server.py:39-80 | a license request keeps the invariant |
| LicenseServer.InvPreservedByApprove | license_server.py:114-124 | approval keeps the invariant |
| LicenseServer.InvPreservedByReject | license_server.py:126-136 | rejection keeps the invariant |
| ServerProperties.GenerateOutcomes | license_server.py:44-62 | each of the five answers happens exactly under its condition: missing field, then program id, then rejected, then allowed |
| ServerProperties.RefusalsChangeNothing | license_server.py:44-54 | a missing field, a foreign program or a rejected id leaves every list and file unchanged |
| ServerProperties.RejectedWins | license_server.py:53-54 | a rejected id is refused with no change even when it is also allowed |
| ServerProperties.PendingRequest | license_server.py:56-60 | an undecided id is queued at the end of pending, which grows by one entry exactly when the id was absent; the id then occurs once, and nothing else changes |
| ServerProperties.GrantedRequest | license_server.py:62-80 | an allowed id gets the four URLs, its license file holds id + newline + password, the template is copied only if the spreadsheet is absent, and the lists are unchanged |
| ServerProperties.GenerateIdempotent | license_server.py:39-80 | repeating a request gives the same answer and the same state: no second queue entry, no second copy |
| ServerProperties.ApproveEffect | license_server.py:114-124 | approval appends the id to allowed only if absent (so it occurs once), deletes its first pending entry keeping the order of the rest, and changes nothing else, not even rejected |
| ServerProperties.RejectEffect | license_server.py:126-136 | rejection appends the id to rejected only if absent (so it occurs once), deletes its first pending entry keeping the order of the rest, and changes nothing else, not even allowed |
| ServerProperties.ApproveIdempotent | license_server.py:114-124 | approving twice equals approving once when pending has no duplicate |
| ServerProperties.RejectIdempotent | license_server.py:126-136 | rejecting twice equals rejecting once when pending has no duplicate |
| ServerProperties.ApproveNotIdempotentOnDuplicatePending | license_server.py:120-121 | with a duplicated pending entry, a second approval removes the second copy |
| ServerProperties.ApproveThenGranted | license_server.py:53-80 | after approving an unrejected id, its next request is granted |
| ServerProperties.RejectThenRefused | license_server.py:53-54 | after rejecting an id, its next request is refused |
| ServerProperties.ApprovalKeepsRejection | license_server.py:114-124 | approving a rejected id leaves it in both lists and still refused |
| ServerProperties.InitialInv | license_server.py:20-22 | a fresh deployment satisfies the invariant |
| ServerProperties.ApplyPreservesInv | license_server.py:39-136 | each request or decision keeps the invariant |
| ServerProperties.ApplyKeepsListsDistinct | license_server.py:56-58 | each request or decision keeps every list duplicate-free, whatever else the files hold |
| ServerProperties.RunKeepsListsDistinct | license_server.py:114-136 | any sequence of operations keeps every list duplicate-free, for a server started on any duplicate-free files |
| ServerProperties.RunPreservesInv | license_server.py:39-136 | every sequence of requests and decisions keeps the invariant |
| ServerProperties.ApplyOnlyGrows | license_server.py:39-136 | no operation removes anything from allowed, rejected, the spreadsheets or the copy log |
| ServerProperties.RunOnlyGrows | license_server.py:39-136 | over any sequence of operations, allowed, rejected and the copy log only grow at their end, and spreadsheets are never removed |
| ServerProperties.RejectionIsFinal | license_server.py:53-54 | once rejected, an id is refused after any later operations |
| ServerProperties.FromFreshDeployment | license_server.py:56-71 | from a fresh deployment, each spreadsheet is copied at most once and only for allowed ids, license files belong to allowed ids and hold their passwords, and the lists stay duplicate-free with pending apart from both decided lists |
| ServerProperties.AllowedAndRejected | license_server.py:114-136 | approve then reject leaves an id in both allowed and rejected, and it is refused |
| ServerProperties.Walkthrough | license_server.py:39-136 | first request queues the id; approval grants it and copies once; a repeat copies nothing; rejection refuses it; a foreign program is refused without effect |

## Left out

- Flask routing, JSON body parsing and `jsonify`: a request is a pair of optional strings, and an answer is the `Outcome` datatype with its status code and reason.
- Non-string JSON values in `machine_id` or `program_id`, and a request with no JSON body: only strings and absent fields are modelled.
- The download endpoints (license_server.py:82-93): they only stream files.
- The admin page (license_server.py:95-112): it only renders the three lists as HTML.
- The text pages that approve and reject return: they are constant.
- File I/O: `load_json`/`save_json` are reads and writes of the list fields; file contents are not parsed. The license file is an entry in a map from path to text. The spreadsheet copy is a name in a set of existing files; the template's bytes are not modelled. `os.makedirs` at start-up is not modelled.
- `time.sleep(1)` after the copy: it only waits.
- Concurrency: the source takes no locks, so interleaved requests are not modelled. Every operation is one atomic step, and the at-most-once copy property is proved for sequential operation only.
- Storage and copy failures: the source does not handle them (an exception ends the request). The model assumes every read, write and copy succeeds.
- Server.GenerateLicense, Server.ApproveId, Server.RejectId: the Python functions reload each list from disk on every call. The model keeps the lists in fields, which is the same as long as nothing else edits the files.
- Credentials.Password: Python strings may hold lone surrogate code points. Dafny characters are Unicode scalar values, so such ids are not modelled.
