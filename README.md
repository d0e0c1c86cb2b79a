# Partner Management System server core, modelled in Dafny

The Partner Management System is an Express and Prisma service. Hospitals use it to take in patient
leads from partners (referrers), to pay the partners in points per lead status, to hand each new lead
to one of the hospital's sales people in turn, and to administer accounts. This project models the
server's core:

- the lead routes in `server/src/routes/leads.js`, as modules `Leads`, `LeadQueries`, `LeadRemarks`,
  `BulkUpload`, with the pricing in `Points` and the rotation in `RoundRobin`;
- the partner point rates and their approval in `server/src/routes/pointsApproval.js`, as module
  `PointsApproval`;
- user administration in `server/src/routes/users.js`, as module `Users`;
- hospitals in `server/src/routes/hospitals.js`, as module `Hospitals`;
- the `auth` and `checkRole` middleware in `server/src/middleware/auth.js`, as module `Auth`.

The database is the value `Store.Tables`. It holds seven fields:

- one sequence per table (users, hospitals, leads, lead documents, remarks, partner point rates), in
  insertion order;
- a counter `tick`, from which fresh ids and creation stamps are drawn.

`Store.Valid` is the table invariant:

- ids and stamps strictly increase within each table and stay below `tick`;
- every document points to an earlier id;
- a rate row is unique per (partner, status).

Each route that writes is modelled twice:

- as a function `Module.Op(t, actor, ...)` that returns the new tables and the route's answer
  (`Outcome`: a value, or one of 400/401/403/404/500);
- as a handler method `Module.HandleOp(db, ...)` on the mutable `Store.Db`. The handler changes
  `db`'s fields step by step, as the route does. Its postcondition says that the final state and the
  answer are exactly the function's.

Routes that only read are functions, or methods that build the Prisma `where` object piece by piece.
Each such method is proved to return exactly the rows that a plain statement of the route's visibility
rule selects. `actor` is the user the `auth` middleware put on the request. A `checkRole` gate
appears as a 403 outcome of the operation it guards.

Where the code does something a reader might not expect, the model follows the code:

- a partner's rate is looked up whatever its approval state;
- at creation a partner rate beats the points override;
- the lead phone check counts characters only;
- `GET /leads` shows DUPLICATE rows, and an ADMIN or SALES_PERSON without a hospital sees every
  hospital's leads;
- `PUT /leads/:id` has no owner or hospital check and no duplicate check;
- `GET /leads/:id` has no hospital scope;
- `GET /leads/analytics` is declared after `GET /leads/:id`, so Express never reaches it; it is
  modelled as the computation it would perform;
- bulk upload takes the rate by the uploader's own id;
- the remark routes do not check whether the lead is deleted;
- approving or rejecting a missing rate or account answers 500;
- an ADMIN may create a SUPERADMIN account;
- the user-edit phone rule looks at the role the request sends;
- the admin transfer does not check the source user's role;
- the hospital list's empty-list branch for other roles is unreachable behind `checkRole` (they get
  403), and an ADMIN without a hospital gets 500.

## Model

| member | source | states |
|---|---|---|
| Auth.RemoveFirst | server/src/middleware/auth.js:8 | `replace` with a string pattern removes a leading occurrence when the string starts with it, and never lengthens the string |
| Auth.RemoveFirstAbsent | server/src/middleware/auth.js:8 | a header with no `Bearer ` in it is used unchanged as the token |
| Auth.RemoveFirstAt | server/src/middleware/auth.js:8 | only the first occurrence of the pattern is removed, wherever it is; the text before and after it is kept |
| Auth.BearerHeaderToken | server/src/middleware/auth.js:8 | `Bearer t` presents exactly the token `t` |
| Auth.Authenticate | server/src/middleware/auth.js:6-30 | the request passes if and only if the token is non-empty, accepted, and names an existing active user; otherwise 401; on success `req.user` is that stored user |
| Auth.InactiveUserRefused | server/src/middleware/auth.js:20-22 | a deactivated account is refused on every token that names it |
| Auth.Guard | server/src/middleware/auth.js:32-39 | `auth` then `checkRole`: the handler runs if and only if the user is authenticated and has a listed role; 401 comes before 403 |
| Store.FindUser | server/src/routes/users.js:39-42 | `findUnique` by id: the row with that id, or none if and only if no row has it |
| Store.FindHospital | server/src/routes/hospitals.js:54-67 | `findUnique` by id over hospitals, with the same either-or |
| Store.FindLead | server/src/routes/leads.js:276 | `findUnique` by id over leads, with the same either-or |
| Points.StatusPoints | server/src/routes/leads.js:25-29 | NEW is worth 100, OPD_DONE 200, IPD_DONE 3500, every other status 0 |
| Points.GetPoints | server/src/routes/leads.js:32-36 | a truthy (non-zero) override is taken as it is; otherwise the status default |
| Points.PartnerRate | server/src/routes/leads.js:38-44 | a rate is found if and only if a row for (partner, status) exists; the value is that row's points |
| Points.RateOfRow | server/src/routes/leads.js:38-44 | under the unique key, the rate found for a row's (partner, status) is that row's points |
| Points.RateIgnoresApproval | server/src/routes/leads.js:38-44 | changing a row's approval state never changes any rate found |
| Points.CreationPoints | server/src/routes/leads.js:80-84 | a new lead's points are the partner's rate for its status (NEW by default) when there is one, otherwise `getPoints` |
| Points.RateBeatsOverrideAtCreation | server/src/routes/leads.js:80-84 | at creation a partner's rate wins over any override |
| Points.UpdatedPoints | server/src/routes/leads.js:279-289 | a SUPERADMIN's truthy override wins; else a status change re-prices at the partner rate or the new status's default; else the points stay |
| RoundRobin.Roster | server/src/routes/leads.js:93-100 | the roster is exactly the hospital's active sales people, in table order |
| RoundRobin.RosterChrono | server/src/routes/leads.js:93-100 | over a chronological user table the roster is in increasing creation order and names each member once |
| RoundRobin.LastAssigned | server/src/routes/leads.js:103-109 | a last assignee exists if and only if some lead of the hospital has a sales person |
| RoundRobin.NextIndex | server/src/routes/leads.js:110-114 | the picked position is always inside the roster |
| RoundRobin.NextSalesPerson | server/src/routes/leads.js:89-117 | no one is picked if and only if the roster is empty; anyone picked is an active sales person of the hospital |
| RoundRobin.IndexAfter | server/src/routes/leads.js:112-113 | `(lastIndex + 1) % length` is the next position, wrapping to 0 after the last |
| RoundRobin.StartsAtOldest | server/src/routes/leads.js:110-115 | with no earlier assignee, or one no longer on the roster, the first roster member is picked, and over a chronological user table no active sales person of the hospital is older than it |
| RoundRobin.FollowsLastAssignee | server/src/routes/leads.js:110-115 | otherwise the member after the last assignee is picked, wrapping around |
| RoundRobin.LastAssignedAppend | server/src/routes/leads.js:103-109 | a new lead changes the last assignee only when it takes a sales person of that hospital |
| RoundRobin.UnassignedLeadKeepsRotation | server/src/routes/leads.js:103-109 | a lead without a sales person (a DUPLICATE row, say) does not move the rotation |
| RoundRobin.RotationStep | server/src/routes/leads.js:89-117 | the lead after one given to member `m` goes to the member after `m` |
| RoundRobin.RotationAt | server/src/routes/leads.js:89-117 | the j-th lead in a run goes to the member j places after the first pick |
| RoundRobin.OffsetCovers | server/src/routes/leads.js:89-117 | consecutive positions once round a roster cover every member once |
| RoundRobin.EveryMemberOnce | server/src/routes/leads.js:89-117 | fairness: n leads created in turn for a fixed roster of n go to n different members, each member once |
| Leads.LivePhoneIndex | server/src/routes/leads.js:60-63 | the duplicate lookup finds a row if and only if some live lead has the phone |
| Leads.Create | server/src/routes/leads.js:47-156 | invalid name or phone gives 400 and writes nothing; a taken phone writes one DUPLICATE row and answers 400 (500 without a hospital); a free phone without a hospital gives 400 and writes nothing; the route succeeds if and only if the intake is valid, the phone is free and a hospital is known, and then inserts one lead and one document per file, and nothing else changes |
| Leads.CreatedLead | server/src/routes/leads.js:80-132 | the stored lead carries the forced PARTNER owner and status, the creation points, the body's or else the actor's hospital, and the rotation's sales person |
| Leads.PartnerOwnsItsLeads | server/src/routes/leads.js:50-55 | a PARTNER's lead, normal or DUPLICATE, is always its own and NEW, whatever the body says |
| Leads.DuplicatePhoneAudit | server/src/routes/leads.js:59-79 | a taken phone yields exactly one DUPLICATE row with 0 points and no sales person, and a 400 carrying it |
| Leads.LengthOnlyPhoneCheck | server/src/routes/leads.js:56-58 | the phone check counts characters: ten letters pass and five digits fail |
| Leads.CreatedDocuments | server/src/routes/leads.js:133-150 | the documents returned with a new lead are exactly the uploaded files, in order |
| Leads.CreateKeepsValid | server/src/routes/leads.js:47-156 | creation keeps the table invariant |
| Leads.HandleCreate | server/src/routes/leads.js:47-156 | the handler makes exactly the writes of `Create` and gives its answer |
| Leads.HandleDuplicate | server/src/routes/leads.js:63-79 | the handler's DUPLICATE insert is the one `Create` specifies |
| Leads.HandleFresh | server/src/routes/leads.js:80-151 | the handler's fresh-lead writes are the ones `Create` specifies |
| Leads.CreationPoints | server/src/routes/leads.js:80-84 | the handler's points block computes `Points.CreationPoints` |
| Leads.AssignSalesPerson | server/src/routes/leads.js:89-117 | the handler's round-robin block computes `RoundRobin.NextSalesPerson` |
| Leads.SaveDocuments | server/src/routes/leads.js:133-145 | the files become document rows under consecutive fresh ids, and no other table changes |
| Leads.Update | server/src/routes/leads.js:273-320 | 404 if and only if the lead is missing, and nothing changes then; otherwise only that row is replaced and the new files are attached |
| Leads.UpdatedRow | server/src/routes/leads.js:275-292 | the supplied name, phone, status, remarks and specialisation replace the stored ones and the points follow the update rule; owner, sales person, hospital, author and identity stay |
| Leads.UpdateAllowsTakenPhone | server/src/routes/leads.js:273-292 | an edit may give a lead a phone another live lead has |
| Leads.UpdateKeepsValid | server/src/routes/leads.js:273-320 | editing keeps the table invariant |
| Leads.HandleUpdate | server/src/routes/leads.js:273-320 | the handler makes exactly the writes of `Update` and gives its answer |
| Leads.DocIds | server/src/routes/leads.js:332-338 | the ids of the lead's documents, one per document, in order |
| Leads.Delete | server/src/routes/leads.js:323-346 | 404 for a missing lead; 403 for a PARTNER that does not own it; it succeeds if and only if the lead exists and, when the actor is a PARTNER, it owns the lead; then its documents and its row are removed |
| Leads.DeleteCascades | server/src/routes/leads.js:323-346 | after deletion the lead and all its documents are gone, and every other lead and document remains |
| Leads.DeleteKeepsValid | server/src/routes/leads.js:323-346 | deletion keeps the table invariant |
| Leads.HandleDelete | server/src/routes/leads.js:323-346 | the handler makes exactly the writes of `Delete` |
| Leads.DeleteDocuments | server/src/routes/leads.js:332-338 | deleting by id, one document at a time, leaves every other document in order |
| Leads.Reassign | server/src/routes/leads.js:408-429 | 403 unless SUPERADMIN or ADMIN; 400 with no target; 404 for a missing lead; it succeeds if and only if none of these applies, and then only the given targets change in that row |
| Leads.ReassignTouchesOneRow | server/src/routes/leads.js:408-429 | every other lead is unchanged, and the table invariant holds |
| LeadQueries.ListLeads | server/src/routes/leads.js:159-181 | the list holds exactly the leads the role rule shows, newest first |
| LeadQueries.NewestFirst | server/src/routes/leads.js:174 | in a chronological table the reversed list is strictly newest first |
| LeadQueries.PartnerListsOwnLeads | server/src/routes/leads.js:161-163 | a PARTNER sees only live leads credited to it |
| LeadQueries.UnscopedAdminListsEverything | server/src/routes/leads.js:164-166 | an ADMIN without a hospital sees every live lead of every hospital |
| LeadQueries.NameOfUser | server/src/routes/leads.js:220-223 | a referenced user's export column holds that user's "first last" name |
| LeadQueries.Export | server/src/routes/leads.js:184-238 | one spreadsheet row per live lead that matches the filters and the role scope, in table order |
| LeadQueries.Duplicates | server/src/routes/leads.js:241-253 | 403 unless ADMIN or SUPERADMIN; otherwise exactly the live DUPLICATE rows of every hospital |
| LeadQueries.DuplicatesNewestFirst | server/src/routes/leads.js:247-250 | the duplicates come newest first |
| LeadQueries.GetLead | server/src/routes/leads.js:256-270 | 404 if and only if the lead is missing, or deleted and the actor is not an administrator; otherwise the lead with exactly its documents |
| LeadQueries.Analytics | server/src/routes/leads.js:383-405 | one live count for each status except DUPLICATE, and the points total of live leads that are not CLOSED |
| LeadQueries.CountsPartitionLiveLeads | server/src/routes/leads.js:386-392 | the eight status counts add up to the live leads, so the report misses exactly the live DUPLICATE rows |
| LeadQueries.LivePointsAppend | server/src/routes/leads.js:394-398 | one more lead adds its points to the total when it is live and not CLOSED, and nothing otherwise |
| LeadQueries.ClosedLeadAddsNoPoints | server/src/routes/leads.js:394-398 | a CLOSED lead never adds to the total |
| LeadRemarks.ContentStart | server/src/routes/leads.js:454 | the text starts after the leading white space: everything skipped is white space and the first kept character is not |
| LeadRemarks.ContentEnd | server/src/routes/leads.js:454 | the text ends before the trailing white space: everything dropped is white space and the last kept character is not |
| LeadRemarks.TrimKeepsTheText | server/src/routes/leads.js:454-464 | `trim` keeps the inner slice, which starts and ends with a non-space; it is empty if and only if the text is all white space |
| LeadRemarks.Remarks | server/src/routes/leads.js:432-444 | the thread is exactly the remarks of that lead; the lead itself is not looked up |
| LeadRemarks.RemarksOldestFirst | server/src/routes/leads.js:434-436 | the thread is strictly oldest first |
| LeadRemarks.AddRemark | server/src/routes/leads.js:447-474 | 400 if and only if there is neither text nor a file; 404 if and only if the lead is missing; it succeeds if and only if neither applies, and then one trimmed remark, with the stored file's URL, is appended |
| LeadRemarks.ThreadAppendOnly | server/src/routes/leads.js:447-474 | earlier remarks stay in place; the lead's thread grows by exactly the new remark; other threads do not change |
| LeadRemarks.ThreadOfAppended | server/src/routes/leads.js:434-436 | appending a remark extends only its own lead's thread |
| LeadRemarks.AddRemarkKeepsValid | server/src/routes/leads.js:447-474 | adding a remark keeps the table invariant |
| LeadRemarks.HandleAddRemark | server/src/routes/leads.js:447-474 | the handler makes exactly the write of `AddRemark` |
| BulkUpload.BulkPoints | server/src/routes/leads.js:358-362 | NEW's 100, replaced by the uploader's own rate for NEW when the uploader is not a SALES_PERSON |
| BulkUpload.Batch | server/src/routes/leads.js:355-373 | every batch entry is a NEW, unassigned lead of the uploader with a name and a ten-character phone, credited to the uploader only if it is a PARTNER |
| BulkUpload.BatchKeepsAcceptedRows | server/src/routes/leads.js:356-357 | exactly the accepted sheet rows enter the batch, in sheet order, each with its own name, phone and remarks |
| BulkUpload.CollectBatch | server/src/routes/leads.js:355-373 | the loop over the sheet builds exactly `Batch`: the accepted rows, each priced with the uploader's rate |
| BulkUpload.Upload | server/src/routes/leads.js:349-380 | no file gives 400; a failure writes nothing; with a hospital the upload succeeds; success appends one lead per accepted row, counts them, and changes nothing else |
| BulkUpload.UploadWithoutHospital | server/src/routes/leads.js:368-378 | an uploader without a hospital gets 500 and no write for a batch with a row in it, and a count of 0 for an empty one |
| BulkUpload.UploadedLeads | server/src/routes/leads.js:363-374 | the k-th uploaded lead carries the name, phone and remarks of the k-th accepted sheet row, is NEW, unassigned, in the uploader's hospital, priced by the uploader's rate, and under a consecutive fresh id |
| BulkUpload.UploadKeepsValid | server/src/routes/leads.js:349-380 | uploading keeps the table invariant |
| BulkUpload.HandleUpload | server/src/routes/leads.js:349-380 | the handler, the loop followed by the `createMany`, makes exactly the writes of `Upload` |
| PointsApproval.PendingList | server/src/routes/pointsApproval.js:9-24 | 403 unless SUPERADMIN; otherwise one entry per PENDING row, in order, with the partner's name and the requested points |
| PointsApproval.PendingListExact | server/src/routes/pointsApproval.js:9-24 | an id is listed if and only if its row is PENDING |
| PointsApproval.SetApproval | server/src/routes/pointsApproval.js:27-50 | 403 if and only if not SUPERADMIN; 500 if and only if there is no such row; it succeeds if and only if neither applies, and then the first row with that id, and only it, takes the new approval state |
| PointsApproval.SetApprovalIdempotent | server/src/routes/pointsApproval.js:27-50 | approving or rejecting twice is the same as once |
| PointsApproval.LastDecisionWins | server/src/routes/pointsApproval.js:27-50 | a later decision overrides an earlier one completely |
| PointsApproval.DecisionKeepsPricing | server/src/routes/pointsApproval.js:27-50 | no decision changes any lead's price |
| PointsApproval.DecidedLeavesPending | server/src/routes/pointsApproval.js:27-50 | an approved or rejected row leaves the pending list |
| PointsApproval.SetApprovalKeepsValid | server/src/routes/pointsApproval.js:27-50 | a decision keeps the table invariant |
| PointsApproval.HandleSetApproval | server/src/routes/pointsApproval.js:27-50 | the handler of both routes makes exactly the write of `SetApproval` |
| PointsApproval.FinalApproval | server/src/routes/pointsApproval.js:60-66 | a SUPERADMIN's rate is APPROVED; an ADMIN's gets the requested state, or PENDING |
| PointsApproval.SetPartnerPoints | server/src/routes/pointsApproval.js:53-86 | 403 unless SUPERADMIN or ADMIN; 400 if and only if a field is missing; it succeeds if and only if neither applies; an existing (partner, status) row is replaced in place, keeping its id, with the points and the state; otherwise one row is appended under a fresh id |
| PointsApproval.UpsertTakesEffect | server/src/routes/pointsApproval.js:53-86 | after an upsert, lead pricing finds exactly the points just written |
| Points.OtherRateAfterUpdate | server/src/routes/pointsApproval.js:68-72 | rewriting the points or approval of the row of one (partner, status) key leaves every other key's rate as it was |
| Points.OtherRateAfterAppend | server/src/routes/pointsApproval.js:73-78 | creating the row of a new key leaves every other key's rate as it was |
| PointsApproval.UpsertKeepsOtherRates | server/src/routes/pointsApproval.js:53-86 | the rate of every other (partner, status) pair is untouched |
| PointsApproval.UpsertKeepsValid | server/src/routes/pointsApproval.js:53-86 | the upsert keeps the unique key and the whole table invariant |
| PointsApproval.AdminRateAwaitsApproval | server/src/routes/pointsApproval.js:60-80 | a SUPERADMIN's rate is never pending; an ADMIN's rate with no requested state is on the pending list |
| PointsApproval.HandleSetPartnerPoints | server/src/routes/pointsApproval.js:53-86 | the handler makes exactly the write of `SetPartnerPoints` |
| PointsApproval.InsertSorted | server/src/routes/pointsApproval.js:95 | inserting into a status-ordered list keeps it ordered |
| PointsApproval.InsertAddsRow | server/src/routes/pointsApproval.js:95 | inserting adds exactly that row and loses none |
| PointsApproval.SortByStatus | server/src/routes/pointsApproval.js:93-96 | the result is in status order and a permutation of the input |
| PointsApproval.PartnerRates | server/src/routes/pointsApproval.js:89-102 | 400 if and only if there is no partner; otherwise a status-ordered permutation of that partner's rows |
| PointsApproval.PartnerRatesMembers | server/src/routes/pointsApproval.js:89-102 | the list holds the partner's rows and nothing else |
| PointsApproval.PartnerRatesStrictlyOrdered | server/src/routes/pointsApproval.js:89-102 | under the unique key, at most one row per status, in strictly increasing status order |
| PointsApproval.SameStatusSameRow | server/src/routes/pointsApproval.js:89-102 | two list entries with one status are the same table row |
| PointsApproval.GetRate | server/src/routes/pointsApproval.js:105-114 | 404 if and only if no row has the id; otherwise that row |
| Users.GetUser | server/src/routes/users.js:37-57 | 404 if and only if the user is missing or inactive; 403 if and only if it is in another hospital and the actor is not a SUPERADMIN; otherwise the stored row is returned |
| Users.ListUsers | server/src/routes/users.js:60-110 | exactly the users the scope rule shows, in table order |
| Users.ListedUsersInScope | server/src/routes/users.js:65-82 | outside the pending-partners query only active accounts are listed, and a non-SUPERADMIN sees only its own hospital |
| Users.PendingPartnersListed | server/src/routes/users.js:79-82 | the pending-partners query lists every ONBOARDING user without a hospital, active or not |
| Users.EmailIndex | server/src/routes/users.js:125-131 | the email lookup finds a row if and only if the email is taken |
| Users.CreateUser | server/src/routes/users.js:113-173 | 403 if and only if not SUPERADMIN or ADMIN; 400 if and only if the phone rule fails or the email is taken; it succeeds if and only if neither applies, and then one account is appended, in the actor's hospital unless the actor is a SUPERADMIN, active for staff roles |
| Users.CreateKeepsUniqueEmails | server/src/routes/users.js:125-131 | no two accounts ever share an email |
| Users.AdminCreatesInOwnHospital | server/src/routes/users.js:144 | an ADMIN's new account, even a SUPERADMIN one, is in the ADMIN's own hospital |
| Users.CreateUserKeepsValid | server/src/routes/users.js:113-173 | creation keeps the table invariant |
| Users.HandleCreateUser | server/src/routes/users.js:113-173 | the handler makes exactly the write of `CreateUser` |
| Users.UpdateUser | server/src/routes/users.js:200-262 | 403 for other roles and, once the phone rule passes, for an ADMIN editing another hospital's user; 400 on the phone rule; 404 if and only if the user is missing; it succeeds if and only if none applies, and then only that row changes, as `Edited` says |
| Users.AdminEditKeepsRoleAndHospital | server/src/routes/users.js:221-242 | an ADMIN's edit keeps the user's role, hospital, email and status |
| Users.PhoneRuleNeedsRoleInRequest | server/src/routes/users.js:205-210 | an edit that sends no role passes the phone rule, whatever the phone |
| Users.UpdateUserKeepsValid | server/src/routes/users.js:200-262 | editing keeps the table invariant |
| Users.HandleUpdateUser | server/src/routes/users.js:200-262 | the handler makes exactly the write of `UpdateUser` |
| Users.DeleteUser | server/src/routes/users.js:265-298 | 403 and 404 exactly as the route decides them; a SUPERADMIN removes the row; an ADMIN deactivates a user of its own hospital, which is exactly when the answer is `Deactivated` |
| Users.DeletedUserLockedOut | server/src/routes/users.js:265-298 | a removed or deactivated user can no longer authenticate |
| Users.DeleteUserKeepsValid | server/src/routes/users.js:265-298 | deletion keeps the table invariant and the unique emails |
| Users.FilterUniqueEmails | server/src/routes/users.js:283-286 | removing rows keeps the emails unique |
| Users.HandleDeleteUser | server/src/routes/users.js:265-298 | the handler makes exactly the write of `DeleteUser` |
| Users.SetAccount | server/src/routes/users.js:301-344 | 500 if and only if the user is missing; otherwise only the account state (and, when given, the hospital) of that row changes |
| Users.Decide | server/src/routes/users.js:301-326 | 403 unless SUPERADMIN or ADMIN; approve makes the account active and ACTIVE, reject makes it inactive and REJECTED |
| Users.ApproveAssign | server/src/routes/users.js:329-344 | 403 unless SUPERADMIN; 400 without a hospital; otherwise approval together with the hospital |
| Users.RejectedLockedOut | server/src/routes/users.js:315-326 | a rejected account can no longer authenticate |
| Users.AssignedPartnerJoinsHospital | server/src/routes/users.js:329-344 | an approved and assigned partner can authenticate and shows in its new hospital's ADMIN user list |
| Users.HandleSetAccount | server/src/routes/users.js:301-344 | the handler makes exactly the write of `SetAccount` |
| Users.ReassignAdmin | server/src/routes/users.js:347-453 | 403 unless SUPERADMIN; 404 if and only if either admin is missing; 400 if and only if the target is not an ADMIN with a hospital or the source has none; it succeeds if and only if none applies; nothing is written on error; only users and leads change |
| Users.ReassignEffect | server/src/routes/users.js:383-425 | the source admin is gone; the remaining users are exactly the others, with the source hospital's partners and sales people moved to the target hospital; each lead keeps its place and fields, its hospital becomes the target's exactly when it was the source's, and its author becomes the target admin exactly when it was the source admin |
| Users.TransferUsers | server/src/routes/users.js:386-424 | the staff moves and the removal of the source admin, row by row |
| Users.TransferLeads | server/src/routes/users.js:406-420 | row by row: the hospital moves from source to target, the author from the source to the target admin, and nothing else changes |
| Users.ReassignKeepsValid | server/src/routes/users.js:347-453 | the transfer keeps the table invariant |
| Users.HandleReassignAdmin | server/src/routes/users.js:347-453 | the handler makes exactly the checks and writes of `ReassignAdmin` |
| Hospitals.View | server/src/routes/hospitals.js:54-67 | a hospital shown with exactly the users of that hospital |
| Hospitals.Views | server/src/routes/hospitals.js:13-26 | one view per hospital, in order |
| Hospitals.ListHospitals | server/src/routes/hospitals.js:9-49 | 403 if and only if not SUPERADMIN or ADMIN; 500 if and only if an ADMIN has no hospital; it succeeds otherwise, with exactly the active hospitals in scope, in table order |
| Hospitals.ListedHospitals | server/src/routes/hospitals.js:13-41 | a hospital's view is listed if and only if the hospital is in the table and shown to the actor |
| Hospitals.AdminSeesOwnHospitalOnly | server/src/routes/hospitals.js:27-41 | an ADMIN's list has at most one hospital, its own and active |
| Hospitals.GetHospital | server/src/routes/hospitals.js:52-82 | 404 if and only if the hospital is missing or inactive; 403 if and only if it is not the actor's and the actor is not a SUPERADMIN; otherwise the hospital with its users |
| Hospitals.CreateHospital | server/src/routes/hospitals.js:85-105 | 403 if and only if not SUPERADMIN; otherwise one active hospital with the given columns is appended |
| Hospitals.Rewrite | server/src/routes/hospitals.js:112-123 | an update of a missing id answers 500 and writes nothing; otherwise only that row changes |
| Hospitals.UpdateHospital | server/src/routes/hospitals.js:108-129 | 403 unless SUPERADMIN; otherwise a rewrite of the given columns |
| Hospitals.DeleteHospital | server/src/routes/hospitals.js:132-144 | 403 unless SUPERADMIN; otherwise a rewrite that clears only `isActive` |
| Hospitals.UpdateTouchesOnlyGivenColumns | server/src/routes/hospitals.js:110-123 | only the given columns change; id, stamp and active flag stay |
| Hospitals.DeletedHospitalHidden | server/src/routes/hospitals.js:132-144 | after soft deletion the row remains, is in nobody's list, and its page answers 404 |
| Hospitals.DeleteIdempotent | server/src/routes/hospitals.js:132-144 | deleting twice is deleting once |
| Hospitals.CreateHospitalKeepsValid | server/src/routes/hospitals.js:85-105 | creation keeps the table invariant |
| Hospitals.RewriteKeepsValid | server/src/routes/hospitals.js:112-138 | an update keeps the table invariant |
| Hospitals.HandleCreateHospital | server/src/routes/hospitals.js:85-105 | the handler makes exactly the write of `CreateHospital` |
| Hospitals.HandleUpdateHospital | server/src/routes/hospitals.js:108-129 | the handler makes exactly the write of `UpdateHospital` |
| Hospitals.HandleDeleteHospital | server/src/routes/hospitals.js:132-144 | the handler makes exactly the write of `DeleteHospital` |
| Store.Db.constructor | server/src/routes/leads.js:10 | a database holding the given tables |

## Left out

- Password hashing, JWT signing and verification: the token check is a lookup in a map from accepted tokens to user ids, passed as a parameter.
- Passwords, and the profile columns without behaviour (partner type, bank details, PAN and Aadhaar documents): the model keeps only the columns that some route decides on.
- The `GET /users/me` and `PUT /users/me` routes, the login and registration routes, the server entry point, the seed script and the client: they are not part of this model.
- File storage: multer's upload and `fs.unlink` are left out; a file is represented by its stored file name.
- Spreadsheet parsing and writing (`xlsx`): bulk upload takes the already-parsed rows, and export returns the rows data instead of a workbook.
- Database constraints other than the ones the routes check: foreign keys, such as a lead delete that still has remarks or a hard user delete that is still referenced, and unique-email races. The model allows these writes.
- Prisma's validation errors for undefined or malformed enum and id values in a body or query: every such value is assumed to be well formed. The one validation failure the routes depend on (a null hospital id in the ADMIN hospital list) is modelled.
- Concurrency and the order in which `Promise.all` finishes: documents are created in file order.
- JavaScript coercion of request strings to numbers (`Number(...)`, `NaN`, fractions): points are integers. `SetPartnerPoints` takes a missing or non-numeric `points` as absent.
- The `include: { hospital }` of the `auth` middleware and of user reads: the model returns the user row only.
- `Users.ListUsers`: the query string `hospitalId=` (empty, neither an id nor `null`) is not modelled.
- `LeadQueries.Export`: rows come in table order; the route gives no `orderBy`, so the database's order is not specified.
- `LeadRemarks.ContentStart` covers ECMAScript white space only for the code points listed; no other Unicode processing is modelled.
- `Users.CreateUser`: the `isActive` and `status` of a new SUPERADMIN account come from the database's column defaults, which are a parameter because the schema is not part of this model. `Hospitals.CreateHospital` likewise assumes that a new hospital is active.
- `PointsApproval.Approve` and `PointsApproval.Reject` are `SetApproval` with APPROVED and REJECTED; their properties are stated about `SetApproval`.
- `Users.ListUsers`: the route gives no `orderBy`, so the database's row order is not specified; the model returns table order.
- `PointsApproval.PendingList`: the route gives no `orderBy`; the model lists the PENDING rows in table order.
- `Hospitals.ListHospitals` and `Hospitals.Views`: the route gives no `orderBy`, and the included users have none either; the model uses table order for both.
- `PointsApproval.SortByStatus`: `orderBy: { status: 'asc' }` is taken to sort by the declaration order of the `LeadStatus` enum, which is how the database sorts an enum column; the schema that declares that order is not part of this model.
