# Incident lifecycle and permissions, in Dafny

This project models the core of a small incident-management web application. Users
report incidents. Admins and managers assign them. Assignees move them through the
statuses open, in_progress, resolved and closed. Anyone signed in can comment.

The application has two front ends over the same tables:
- a JSON API (`app/routes/api.py`);
- browser pages with forms (`app/routes/incidents.py`).

The incident record and its JSON form come from `app/models/incident.py`.

The model replaces the database with an in-memory store, class `Store.Database`. It holds:
- the user, incident and comment tables, each a sequence of rows in insertion order;
- the next primary key of each table.

Each request handler is modelled as follows:
- It takes the request's login session (`Store.Session`), the parsed request body or form, and the current time as a natural number.
- It returns what the application answers: an HTTP status and body for the API, or the kind of outcome for the browser.
- It also returns the notification it hands to the mailer, if any. A notification is an event, an incident id and a list of email addresses.

Handlers that write are module-level methods that take the database (`db: Database`) and may modify it. Each method's contract gives the response and the whole new state, case by case, in the order the handler checks:
- authentication;
- existence of the incident;
- permission;
- validation;
- the change itself.

All of them keep the tables' invariant, `Store.Consistent`:
- primary keys are unique in each of the three tables, and incident and comment keys are below the next one;
- every incident's creator exists and its status is one of the four;
- a resolved incident has a resolution time;
- every comment's incident and author exist.

Handlers that only read are functions of the tables.

Modules:
- `Rows` — selection (WHERE), stable ordering by a key (ORDER BY) and LIMIT over a table.
- `IncidentModel` — the user, comment and incident rows, the column defaults, and `to_dict`.
- `Permissions` — the three permission checks.
- `Lifecycle` — what each handler does to a loaded incident, and the commit. The commit refreshes `updated_at` only when a column value changed.
- `Store` — the lookups every handler starts with, the table invariant, and the database with its comment-cascading delete.
- `Queries` — the filtered listing, the dashboard and an incident's comments.
- `Notify` — the recipients of the three notifications.
- `Api` — the JSON routes.
- `Web` — the browser routes.

Where the application's documented behaviour and its code differ, the model follows the code:
- Status-change recipients are the creator's email, then the assignee's email when an assignee is set and is not the actor. The assignee's email is not compared with the creator's, so a creator who is also the assignee is listed twice.
- The API checks only that `title`, `description` and `incident_type` are present in a create request. Empty strings are accepted.
- The API accepts a comment with any `content`, including the empty string. Only the browser form requires non-blank content.
- The API stores any priority string it is given. Only the browser form restricts priority to low, medium, high and critical.
- The browser ignores an unknown status without a message, where the API answers 400.
- `updated_at` is refreshed by the column's `onupdate` default. That default fires only when the commit writes a changed row, so a request that changes nothing leaves `updated_at` as it was.
- A status update reads the creator's and the assignee's user rows after the commit. When one of them does not load, the handler raises. The status change is then already stored, and the response is a 500.

  The browser assign page does not check that the assignee id names a user. This leads to exactly that case, shown by `Web.DanglingAssigneeBreaksStatusChange`.

## Model

| member | source | states |
|---|---|---|
| `IncidentModel.NewIncident` | incident-management-system/app/models/incident.py:5-16 | a new row has no assignee and no resolution time, and created_at and updated_at are the insertion time |
| `IncidentModel.ColumnDefaults` | incident-management-system/app/models/incident.py:9-16 | a row inserted without priority and status is "medium" and "open", keeps its creator, and has null assignee and resolution time |
| `IncidentModel.ToDict` | incident-management-system/app/models/incident.py:22-35 | `to_dict` has exactly the eleven keys, and each key holds its column's value unchanged; assignee_id is null exactly when there is no assignee and resolved_at exactly when there is no resolution time |
| `IncidentModel.ToDictInjective` | incident-management-system/app/models/incident.py:23-34 | `to_dict` loses nothing: two incidents with the same JSON object are equal |
| `Permissions.CanEdit` | incident-management-system/app/routes/api.py:101 | admins and managers may edit every incident; anyone else may edit exactly the incidents they created; the creator always may (the browser check at incidents.py:145 is the same) |
| `Permissions.CanAssign` | incident-management-system/app/routes/api.py:135 | exactly admins and managers may assign, and whoever may assign may also edit and change the status of every incident (the browser check at incidents.py:198 is the same) |
| `Permissions.CanUpdateStatus` | incident-management-system/app/routes/api.py:167 | admins and managers may change every status; anyone else exactly the status of incidents assigned to them; on an unassigned incident only admins and managers (the browser check at incidents.py:228 is the same) |
| `Permissions.StaffMayDoEverything` | incident-management-system/app/routes/api.py:101-167 | admins and managers pass the edit, assign and status checks on every incident |
| `Permissions.MemberRights` | incident-management-system/app/routes/api.py:101-167 | any other role cannot assign, can edit exactly its own incidents, and can change the status exactly of incidents assigned to it |
| `Lifecycle.Patched` | incident-management-system/app/routes/api.py:109-119 | each of title, description, priority and incident_type present in the body replaces its column, an absent one keeps it; no other column changes; the row is unchanged exactly when every given value equals the stored one |
| `Lifecycle.Edited` | incident-management-system/app/routes/incidents.py:154-157 | the four form values replace title, description, priority and type; no other column changes; the row is unchanged exactly when the four values equal the stored ones |
| `Lifecycle.Assigned` | incident-management-system/app/routes/api.py:148-149 | the assignee is set and the status is in_progress; nothing else changes; the row is unchanged exactly when it was already in_progress with that assignee |
| `Lifecycle.StatusSet` | incident-management-system/app/routes/api.py:180-183 | the status is set; resolved_at becomes the request time for "resolved" and is kept otherwise; nothing else changes; the row is unchanged exactly when the status was already that one (and, for "resolved", resolved_at was already the request time) |
| `Lifecycle.Committed` | incident-management-system/app/models/incident.py:15 | a commit either leaves the row as it was or writes the changed row with updated_at set to the commit time; apart from updated_at the result is always the changed row; an unchanged row is left as it was |
| `Lifecycle.PatchChangesOnlyNamedKeys` | incident-management-system/app/routes/api.py:109-121 | a PUT sets each of title, description, priority and incident_type that the body names to its value, keeps the others and every lifecycle column, and changes nothing when it names none of them |
| `Lifecycle.PatchIdempotent` | incident-management-system/app/routes/api.py:109-119 | applying the same PUT body twice equals applying it once |
| `Lifecycle.EditSetsFormFields` | incident-management-system/app/routes/incidents.py:154-159 | a browser edit sets exactly title, description, priority and type, and keeps status, creator, assignee and timestamps other than updated_at |
| `Lifecycle.AssignForcesInProgress` | incident-management-system/app/routes/api.py:148-150 | assignment records the assignee and sets in_progress whatever the status was; no other column changes except updated_at |
| `Lifecycle.ResolvedAtStamp` | incident-management-system/app/routes/api.py:180-185 | "resolved" stamps resolved_at with the request time; any other status keeps the previous resolved_at, so it is never cleared |
| `Lifecycle.AssigneeMayUpdateStatus` | incident-management-system/app/routes/api.py:148-167 | after being assigned, the assignee passes the status check |
| `Lifecycle.EditRightIsPermanent` | incident-management-system/app/routes/api.py:109-183 | no PUT, assignment or status change alters who may edit the incident |
| `Store.CurrentUser` | incident-management-system/app/routes/api.py:18 | the request has a user exactly when it is signed in and the session's id loads a stored user, and then it is that user |
| `Store.FindUser` | incident-management-system/app/routes/api.py:143-146 | looking up a user by id returns a stored user with that id, or nothing exactly when no user has it |
| `Store.IndexOf` | incident-management-system/app/routes/api.py:51 | looking up an incident by id returns the position of a row with that id, or nothing exactly when no row has it |
| `Store.Load` | incident-management-system/app/routes/api.py:15-21 | the start of every `/incidents/<id>` handler: no session user gives 401, then a missing incident gives 404, otherwise the actor and the incident's row |
| `Store.InsertKeepsConsistent` | incident-management-system/app/routes/api.py:69-79 | inserting a well-formed incident under the next key keeps the table invariant |
| `Store.InsertCommentKeepsConsistent` | incident-management-system/app/routes/api.py:212-219 | inserting a comment by an existing user on an existing incident under the next key keeps the table invariant |
| `Store.ReplaceKeepsConsistent` | incident-management-system/app/routes/api.py:109-121 | writing back a loaded row that is still well formed keeps the table invariant |
| `Store.RemovalKeepsConsistent` | incident-management-system/app/models/incident.py:17 | deleting an incident together with its comments keeps the table invariant |
| `Store.Database.AddIncident` | incident-management-system/app/routes/api.py:78-79 | adding a well-formed row under the next key appends exactly that row, advances the key, leaves users and comments as they were, and keeps the invariant |
| `Store.Database.SaveIncident` | incident-management-system/app/routes/api.py:121 | committing a loaded row that is still well formed replaces exactly that row, leaves users, comments and keys as they were, and keeps the invariant |
| `Store.Database.RemoveIncident` | incident-management-system/app/models/incident.py:17 | deleting an incident deletes every comment on it and keeps every other comment and the invariant |
| `Queries.Listing` | incident-management-system/app/routes/api.py:28-41 | the listing holds exactly the incidents that match every non-empty filter, each as often as stored, newest first |
| `Queries.EmptyFilterListsAll` | incident-management-system/app/routes/api.py:34-39 | without filters the listing is a permutation of the whole table |
| `Queries.FiltersIntersect` | incident-management-system/app/routes/api.py:34-39 | a status filter together with a priority filter selects the intersection of what each selects alone |
| `Queries.CountStatus` | incident-management-system/app/routes/incidents.py:47-50 | a status count never exceeds the table size |
| `Queries.CountStatusExtremes` | incident-management-system/app/routes/incidents.py:47-50 | a status count is zero exactly when no incident has the status, and the table size exactly when every incident has it |
| `Queries.CountMatchesListing` | incident-management-system/app/routes/incidents.py:47-50 | each dashboard count equals the length of the listing filtered on that status |
| `Queries.StatusCountsAddUp` | incident-management-system/app/routes/incidents.py:46-50 | when every status is one of the four, the four counts add up to the total |
| `Queries.NotClosed` | incident-management-system/app/routes/incidents.py:43 | the open list holds exactly the incidents that are not closed, each as often as stored, newest first (ORDER BY created_at DESC) |
| `Queries.AssignedTo` | incident-management-system/app/routes/incidents.py:53 | "my incidents" holds exactly the incidents assigned to the actor that are not closed, each as often as stored, in table order (the query has no ORDER BY) |
| `Queries.RecentlyCreatedBy` | incident-management-system/app/routes/incidents.py:56 | at most five incidents, all created by the actor, newest first; any incident of the actor left out is no newer than every one shown, and is left out only when five are shown; no incident is shown more often than stored |
| `Queries.DashboardFor` | incident-management-system/app/routes/incidents.py:41-67 | the total is the table size; the four counts add up to it when every status is one of the four; the open list holds exactly the stored incidents that are not closed, and "my incidents" exactly those assigned to the actor and not closed; and the three lists are exactly `NotClosed`, `AssignedTo` and `RecentlyCreatedBy`, so their order and multiplicity are as those rows state |
| `Queries.CommentsFor` | incident-management-system/app/routes/api.py:238 | exactly the comments on the incident, each as often as stored, oldest first |
| `Notify.EmailsWithRole` | incident-management-system/app/routes/api.py:82-83 | one address per user with that role, in table order: the k-th address is the email of the k-th such user; so an address is listed exactly when some user with that role has it |
| `Notify.CreationRecipients` | incident-management-system/app/routes/api.py:82-84 | the admins' emails followed by the managers' emails, one per admin and one per manager; an address is listed exactly when an admin or a manager has it |
| `Notify.CreationNotice` | incident-management-system/app/routes/api.py:81-87 | a creation notification is sent exactly when there is an admin or a manager, and goes to the admins then the managers |
| `Notify.CreationNoticeSentWhenRecipients` | incident-management-system/app/routes/api.py:84-87 | the creation notice is sent exactly when the recipient list is non-empty, and carries that list |
| `Notify.StatusRecipients` | incident-management-system/app/routes/api.py:187-194 | the creator's email first, then the assignee's exactly when an assignee is set (truthy) and is not the actor; the handler raises exactly when one of those users does not load |
| `Notify.StatusRecipientsNotDeduplicated` | incident-management-system/app/routes/api.py:188-191 | a creator who is also the assignee is emailed twice when someone else changes the status |
| `Notify.AssigneeActingIsNotNotified` | incident-management-system/app/routes/api.py:189 | an assignee who changes the status is not emailed, and only the creator is |
| `Api.MissingRequired` | incident-management-system/app/routes/api.py:64-67 | nothing is missing exactly when title, description and incident_type are all present; otherwise the reported field is required, absent, and preceded only by present fields in the order title, description, incident_type |
| `Api.CheckRequired` | incident-management-system/app/routes/api.py:64-67 | the loop over the required fields reports exactly the first absent one, as `Api.MissingRequired` defines it |
| `Api.Serialised` | incident-management-system/app/routes/api.py:44 | one JSON object per incident, in the listing's order |
| `Api.SerialisedRows` | incident-management-system/app/routes/api.py:44 | every listed incident's object is in the response, and every object in it is some listed incident's |
| `Api.GetIncidents` | incident-management-system/app/routes/api.py:24-45 | 401 exactly without a session user; otherwise 200 with the serialised listing |
| `Api.GetIncidentsMatchesFilters` | incident-management-system/app/routes/api.py:28-44 | the response holds the object of every matching incident and only objects of matching incidents |
| `Api.GetIncidentsCarryFilters` | incident-management-system/app/routes/api.py:34-44 | every object in the response carries each non-empty filter's value |
| `Api.GetIncidentsNewestFirst` | incident-management-system/app/routes/api.py:41-44 | created_at never increases along the response |
| `Api.GetIncident` | incident-management-system/app/routes/api.py:48-53 | 401 without a session user, then 404 exactly when no incident has the id; otherwise the object of the incident with that id |
| `Api.Views` | incident-management-system/app/routes/api.py:240-247 | one comment object per comment, in order, carrying the author's username; fails exactly when some author does not load |
| `Api.GetComments` | incident-management-system/app/routes/api.py:233-248 | 401 exactly without a session user, 404 exactly when the incident is missing, 500 only when some comment's author does not load; otherwise the objects of the incident's comments |
| `Api.GetCommentsOrdered` | incident-management-system/app/routes/api.py:238-247 | the response has one object per comment on the incident, oldest first, each copying a comment on that incident |
| `Api.GetCommentsNeverFails` | incident-management-system/app/routes/api.py:245 | in consistent tables every author loads, so listing comments never raises |
| `Api.CreateIncident` | incident-management-system/app/routes/api.py:56-92 | 401, then 400 for an empty body, then 400 naming the first missing required field, all with no change; otherwise one open incident of the actor is appended with the given fields and priority defaulting to medium, 201, and the creation notice |
| `Api.UpdateIncident` | incident-management-system/app/routes/api.py:95-126 | 401, 404, 403 unless creator or staff, 400 for an empty body, all with no change; otherwise only the named editable columns of that row change, committed |
| `Api.AssignIncident` | incident-management-system/app/routes/api.py:129-158 | 401, 404, 403 unless staff, 400 without assignee_id, 400 for an id that loads no user, all with no change; otherwise the assignee is set, the status becomes in_progress, and the assignee alone is emailed |
| `Api.UpdateStatus` | incident-management-system/app/routes/api.py:161-199 | 401, 404, 403 unless assignee or staff, 400 without status, 400 outside the four statuses, all with no change; otherwise the status is set (resolved stamps resolved_at) and committed, then the status recipients are emailed, or 500 when one of them does not load |
| `Api.AddComment` | incident-management-system/app/routes/api.py:202-230 | 401, 404, 400 without content, all with no change; otherwise one comment by the actor on that incident is appended, and 201 with the author's username |
| `Web.Validate` | incident-management-system/app/routes/incidents.py:16-32 | a form validates exactly when title and description are present and not blank, priority is absent (default medium) or one of the four choices, and type is one of the six choices; the values are the submitted ones |
| `Web.EditWithoutPriorityResetsIt` | incident-management-system/app/routes/incidents.py:19-24 | an edit form without a priority field resets the incident's priority to medium |
| `Web.DashboardPage` | incident-management-system/app/routes/incidents.py:39-67 | a login redirect exactly without a session user, otherwise the actor's dashboard |
| `Web.ListPage` | incident-management-system/app/routes/incidents.py:69-93 | a login redirect exactly without a session user, otherwise exactly the matching incidents, each as often as stored, newest first |
| `Web.ViewIncident` | incident-management-system/app/routes/incidents.py:127-137 | login redirect, then 404 exactly when the incident is missing; otherwise the incident with that id and exactly its comments, each as often as stored, oldest first |
| `Web.CreateIncident` | incident-management-system/app/routes/incidents.py:95-125 | login redirect, or an invalid form, leaves everything unchanged; otherwise one open incident of the actor with the validated values is appended and the creation notice is sent |
| `Web.EditIncident` | incident-management-system/app/routes/incidents.py:139-170 | login redirect, 404, refusal unless creator or staff, and an invalid form leave everything unchanged; otherwise exactly title, description, priority and type of that row change, committed |
| `Web.AddComment` | incident-management-system/app/routes/incidents.py:172-190 | login redirect, 404 and blank or missing content leave everything unchanged; otherwise one comment by the actor on that incident is appended |
| `Web.AssignIncident` | incident-management-system/app/routes/incidents.py:192-220 | login redirect, 404, refusal unless staff, and an empty assignee id leave everything unchanged; otherwise the assignee is set without checking it and the status becomes in_progress; the assignee is emailed only if the id loads a user |
| `Web.UpdateStatus` | incident-management-system/app/routes/incidents.py:222-254 | login redirect, 404, refusal unless assignee or staff, and a missing or unknown status leave everything unchanged with no email; otherwise as the API: set, committed, then the recipients emailed or a 500 |
| `Web.DanglingAssigneeBreaksStatusChange` | incident-management-system/app/routes/incidents.py:207-247 | after the browser assigns an id that loads no user, a status change by anyone else cannot compute its recipients, so the handler raises |

## Left out

- The mailer (`app/email_service.py`) is not modelled. Its templates, its transport and its detached thread per message are I/O and concurrency. A notification is the record handed to it.
- The client script (`app/static/js/main.js`), the application factory and `app/routes/main.py` are not modelled. They are UI and framework wiring.
- `User` and `Comment` model files are not part of this model. Their columns are the ones the handlers use.
- HTML rendering, flash messages, redirect targets, GET requests that only display a form, and the edit form's pre-filling are not modelled. Each browser handler returns only the kind of outcome.
- Flask-WTF's CSRF token check is not modelled. A submitted form is taken to carry a valid token.
- The clock is a parameter `now`. No relation between successive times is assumed, so "resolved_at is not before created_at" is not stated.
- Timestamps are opaque numbers. Their ISO-8601 text in `to_dict` and in comment objects is not modelled.
- JSON request bodies are modelled as maps from keys to strings. Non-string values, non-object bodies and unparsable bodies are not modelled.
- The assign, status and comment bodies are reduced to the one key each handler reads (`None` when the body lacks it).
- A non-numeric `assignee_id`, in the API or the browser form, is not modelled.
- `Web.Blank`: only ASCII whitespace counts as blank. Python's `str.strip` also removes other Unicode whitespace.
- Column length limits (`String(100)`, `String(20)`, `String(50)`) are not modelled. The model assumes a database engine that stores over-long strings as given (SQLite does), so no insert fails for length.
- Foreign keys (`creator_id`, `assignee_id`, a comment's `incident_id` and `user_id`) are not checked by the database in this model. The model assumes an engine that does not enforce them, as SQLite does by default. Under an enforcing engine the browser assignment of an id that names no user would fail at its commit with nothing stored, instead of storing the id as `Web.AssignIncident` and `Web.DanglingAssigneeBreaksStatusChange` describe.
- The order of a query without ORDER BY (the admin and manager email lists, "my incidents") is not modelled as SQL leaves it: SQL leaves that order unspecified, and the model fixes it to the table's insertion order.
- The user table is taken as given: no handler here writes it, and a new database requires only that its user ids are unique.
- Concurrent requests and their races, and transaction rollback, are not modelled. Each handler runs alone and to completion.
- `Lifecycle.Committed`: the browser form sends the assignee id as text. Whether the ORM writes the row when the same id is submitted again, and so refreshes updated_at, is not modelled. The model compares values.
- Neither route file has a delete handler. `Store.Database.RemoveIncident` models only the ORM's cascade declared on the incident's comments.
