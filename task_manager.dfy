/** The task manager component's state cells and the handlers that replace
    them. Every remote call (table select and insert, storage upload, public
    URL lookup) is represented by the result it hands back, given as a
    parameter; so is the clock reading `Date.now()` and the signed-in user's
    email. */
module TaskManager {
  import opened Wrappers
  import opened TaskList
  import StorageKey

  /** The contents of the "new task" form. */
  datatype Draft = Draft(title: string, description: string)

  /** The empty form the component starts with and resets to. */
  const EmptyDraft := Draft("", "")

  /** An image file picked in the form; only its name matters here. */
  datatype File = File(name: string)

  /** The record sent to the `tasks` table by the insert request. */
  datatype NewRow = NewRow(title: string, description: string, email: string, image_url: Option<string>)

  class TaskManager {
    /** The form contents (`newTask`). */
    var newTask: Draft
    /** The local mirror of the `tasks` table (`tasks`). */
    var tasks: seq<Task>
    /** The image picked in the form, if any (`taskImage`). */
    var taskImage: Option<File>

    constructor ()
      ensures newTask == EmptyDraft && tasks == [] && taskImage == None
    {
      newTask := EmptyDraft;
      tasks := [];
      taskImage := None;
    }

    /** `fetchTasks`: on an error the list is left as it was; otherwise it
        is replaced wholesale by the rows fetched, in the order received. */
    method FetchTasks(result: Result<seq<Task>, string>)
      modifies this`tasks
      ensures result.Failure? ==> tasks == old(tasks)
      ensures result.Success? ==> tasks == result.value
    {
      if result.Failure? {
        return;
      }
      tasks := result.value;
    }

    /** INSERT notification from the change feed. */
    method OnInsert(payloadNew: Task)
      modifies this`tasks
      ensures tasks == Insert(old(tasks), payloadNew)
    {
      tasks := Insert(tasks, payloadNew);
    }

    /** UPDATE notification from the change feed. */
    method OnUpdate(payloadNew: Task)
      modifies this`tasks
      ensures tasks == Update(old(tasks), payloadNew)
    {
      tasks := Update(tasks, payloadNew);
    }

    /** DELETE notification from the change feed; only the id of the old
        record (`payload.old.id`) is used. */
    method OnDelete(oldId: int)
      modifies this`tasks
      ensures tasks == Delete(old(tasks), oldId)
    {
      tasks := Delete(tasks, oldId);
    }

    /** Typing in the title field. */
    method EditTitle(title: string)
      modifies this`newTask
      ensures newTask == old(newTask).(title := title)
    {
      newTask := newTask.(title := title);
    }

    /** Typing in the description field. */
    method EditDescription(description: string)
      modifies this`newTask
      ensures newTask == old(newTask).(description := description)
    {
      newTask := newTask.(description := description);
    }

    /** `handleFileChange`: the first picked file becomes the task image;
        an empty selection leaves the previous choice in place. */
    method HandleFileChange(files: seq<File>)
      modifies this`taskImage
      ensures |files| > 0 ==> taskImage == Some(files[0])
      ensures |files| == 0 ==> taskImage == old(taskImage)
    {
      if |files| > 0 {
        taskImage := Some(files[0]);
      }
    }

    /** `uploadImage`: stores the file under `name-now` and returns its
        public URL, or nothing when the storage upload reports an error.
        `uploadError` is the upload's reported error and `publicUrl` the
        storage's path-to-URL resolution. The source function returns only
        the URL or `null`; `path` is returned only so the contract can name
        the key. */
    method UploadImage(file: File, now: nat, uploadError: Option<string>, publicUrl: string -> string)
      returns (path: string, url: Option<string>)
      ensures path == StorageKey.FilePath(file.name, now)
      ensures url.None? <==> uploadError.Some?
      ensures url.Some? ==> url.value == publicUrl(path)
    {
      path := StorageKey.FilePath(file.name, now);
      if uploadError.Some? {
        return path, None;
      }
      url := Some(publicUrl(path));
    }

    /** `handleSubmit`: uploads the picked image if there is one, sends the
        insert request and, only when the insert reports no error, clears
        the form. The local list is not touched: the new row arrives later
        through the change feed. Returns the record sent. */
    method HandleSubmit(email: string, now: nat, uploadError: Option<string>,
                        publicUrl: string -> string, insertError: Option<string>)
      returns (sent: NewRow)
      modifies this`newTask, this`taskImage
      ensures sent.title == old(newTask).title && sent.description == old(newTask).description
      ensures sent.email == email
      ensures old(taskImage).None? ==> sent.image_url == None
      ensures old(taskImage).Some? ==>
        sent.image_url == (if uploadError.Some? then None
                           else Some(publicUrl(StorageKey.FilePath(old(taskImage).value.name, now))))
      ensures insertError.None? ==> newTask == EmptyDraft && taskImage == None
      ensures insertError.Some? ==> newTask == old(newTask) && taskImage == old(taskImage)
      ensures tasks == old(tasks)
    {
      var imageUrl: Option<string> := None;
      if taskImage.Some? {
        var _, url := UploadImage(taskImage.value, now, uploadError, publicUrl);
        imageUrl := url;
      }
      sent := NewRow(newTask.title, newTask.description, email, imageUrl);
      if insertError.Some? {
        return;
      }
      newTask := EmptyDraft;
      taskImage := None;
    }
  }
}
