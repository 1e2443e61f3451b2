# SupaTask task list, modelled in Dafny

SupaTask is a small task-tracking web client. Its task manager component keeps
a local, ordered list of task rows that mirrors a remote `tasks` table. The
list changes in four ways only:

- the initial fetch replaces it wholesale;
- an INSERT notification from the change feed appends the new row;
- an UPDATE notification replaces every row with the payload's id;
- a DELETE notification drops every row with the deleted id.

The component also keeps the "new task" form and the picked image. On submit
it uploads the image under the key `name-millis`, sends the insert request,
and clears the form only when the insert succeeds.

This project models that component:

- `wrappers.dfy` defines `Option` (JavaScript `null` or a value) and `Result`
  (a call's `data` or its `error`).
- `task_list.dfy` (module `TaskList`) defines the `Task` row and the three
  change-feed updaters as pure functions on `seq<Task>`. It proves what each
  updater does to positions, lengths, ids and order, and how they behave
  when repeated.
- `storage_key.dfy` (module `StorageKey`) defines the upload key: the file
  name, a hyphen, then the timestamp in decimal. It proves that the key
  determines both the name and the timestamp.
- `task_manager.dfy` (module `TaskManager`) defines a class with the
  component's state cells `tasks`, `newTask` and `taskImage`. Its methods
  are the fetch, the three feed handlers, the form edits, the image upload
  and the submit handler.

Each remote call is represented by the result it returns, passed in as a
parameter: the fetched rows or error, the upload error, the storage's
path-to-URL resolution, and the insert error. The clock reading
`Date.now()` and the signed-in user's email are parameters too.

The INSERT handler (src/components/task-manager.jsx:106) has no guard on the
id: it always appends, so a repeated INSERT notification duplicates the row.
`TaskList.InsertTwiceDuplicates` proves this: after the same INSERT twice the
list holds two more entries with that id than before.

## Model

| member | source | states |
|---|---|---|
| `TaskList.Insert` | src/components/task-manager.jsx:104-107 | the INSERT updater grows the list by exactly one; the earlier entries are unchanged and the new record is last |
| `TaskList.InsertCount` | src/components/task-manager.jsx:106 | after an insert, the count of the new record's id rises by one and every other id's count is unchanged (no id check) |
| `TaskList.InsertTwiceDuplicates` | src/components/task-manager.jsx:106 | applying the same INSERT twice leaves two more entries with that id than before and differs from applying it once: the insert is not idempotent |
| `TaskList.UpdateAt` | src/components/task-manager.jsx:108-112 | the UPDATE updater keeps the length; each position with the payload's id holds the payload; every other position keeps its original element at the same index |
| `TaskList.UpdateAbsent` | src/components/task-manager.jsx:110 | an update whose id is not in the list leaves the list unchanged |
| `TaskList.UpdateIdempotent` | src/components/task-manager.jsx:110 | applying the same UPDATE payload twice equals applying it once |
| `TaskList.UpdateKeepsIds` | src/components/task-manager.jsx:110 | an update never changes how many entries carry any given id |
| `TaskList.DeleteMembers` | src/components/task-manager.jsx:113-115 | a record survives a DELETE exactly when it was in the list and its id differs from the deleted id; no entry with that id remains |
| `TaskList.DeleteLength` | src/components/task-manager.jsx:114 | the length drops by exactly the number of entries with the deleted id, so a delete never lengthens the list |
| `TaskList.DeleteAppend` | src/components/task-manager.jsx:114 | deleting from a concatenation is the concatenation of the deletions, so the survivors keep their relative order |
| `TaskList.DeleteAbsent` | src/components/task-manager.jsx:114 | deleting an id that is not present leaves the list unchanged |
| `TaskList.DeleteIdempotent` | src/components/task-manager.jsx:114 | applying the same DELETE twice equals applying it once |
| `TaskList.DeleteAfterInsert` | src/components/task-manager.jsx:104-115 | a DELETE of an inserted id undoes the insert, and also removes any earlier entries with that id |
| `TaskList.DeleteAfterUpdate` | src/components/task-manager.jsx:108-115 | a DELETE of an updated id gives the same list as deleting without the update |
| `StorageKey.Decimal` | src/components/task-manager.jsx:48 | the timestamp renders as a non-empty string of decimal digits with no leading zero |
| `StorageKey.ParseDecimalOfDecimal` | src/components/task-manager.jsx:48 | reading the decimal rendering back gives the original timestamp |
| `StorageKey.FilePath` | src/components/task-manager.jsx:48 | the key is the file name, then `-`, then the decimal timestamp |
| `StorageKey.FilePathInjective` | src/components/task-manager.jsx:48 | equal keys have equal file names and equal timestamps; two uploads collide only when both name and millisecond are equal |
| `StorageKey.DistinctTimestampsDistinctKeys` | src/components/task-manager.jsx:48 | for one file name, distinct timestamps give distinct keys |
| `TaskManager.TaskManager.constructor` | src/components/task-manager.jsx:6-9 | the component starts with an empty form, an empty list and no image |
| `TaskManager.TaskManager.FetchTasks` | src/components/task-manager.jsx:12-24 | on an error result the list is unchanged (early return); on success it is replaced by the fetched rows, in their order |
| `TaskManager.TaskManager.OnInsert` | src/components/task-manager.jsx:104-107 | the INSERT handler sets the list to the INSERT updater applied to the previous list |
| `TaskManager.TaskManager.OnUpdate` | src/components/task-manager.jsx:108-112 | the UPDATE handler sets the list to the UPDATE updater applied to the previous list |
| `TaskManager.TaskManager.OnDelete` | src/components/task-manager.jsx:113-115 | the DELETE handler sets the list to the DELETE updater applied to the previous list and the old record's id |
| `TaskManager.TaskManager.EditTitle` | src/components/task-manager.jsx:139 | typing in the title field changes the form's title and nothing else |
| `TaskManager.TaskManager.EditDescription` | src/components/task-manager.jsx:146 | typing in the description field changes the form's description and nothing else |
| `TaskManager.TaskManager.HandleFileChange` | src/components/task-manager.jsx:88-92 | a non-empty selection makes its first file the task image; an empty selection keeps the previous image |
| `TaskManager.TaskManager.UploadImage` | src/components/task-manager.jsx:47-58 | the file is stored under `name-now`; no URL is returned exactly when the upload reports an error; otherwise the URL is the public URL of that key |
| `TaskManager.TaskManager.HandleSubmit` | src/components/task-manager.jsx:61-86 | the record sent carries the form's title and description and the user's email; its `image_url` is null when no image was picked or the upload failed, and otherwise the uploaded key's URL; the form and the image are reset only when the insert reports no error, and both are kept otherwise; the list is untouched |

## Left out

- Remote calls themselves are not modelled: the table select, insert, update and delete, the storage upload and URL lookup, and the channel subscription and removal. Only their results enter the model, as parameters.
- `deleteTask` and `updateTask` (src/components/task-manager.jsx:27-44) only issue remote requests and log errors; they never change local state, so they are not modelled. The same goes for the shared `newDescription` field those requests read.
- The effect lifecycle (`useEffect` mount and cleanup) and the ordering of asynchronous steps are not modelled. Each handler is modelled as one atomic step.
- Whether the local list converges to the remote table is not stated. That needs a model of the remote store and of event delivery.
- The server's ordering of the fetch by `created_at` is not modelled; the fetched rows are taken in the order received.
- `TaskManager.TaskManager.UploadImage` models the file only by its name; the uploaded bytes are not modelled.
- `Date.now()` is modelled as a natural number of milliseconds, the parameter `now`.
- `TaskManager.TaskManager.OnDelete` takes only the old record's id, which is all the handler reads.
- Logging (`console.error`, `console.log`), `preventDefault`, rendering and styling are not modelled.
- The sign-in and sign-up forms (src/components/auth.jsx) and session tracking (src/App.jsx) only forward to the platform's authentication service, so they are not modelled.
