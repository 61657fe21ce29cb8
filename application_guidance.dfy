/** The application guidance page (frontend/src/pages/ApplicationGuidance.jsx):
    the list of locked applications, the checklist edits of the selected
    application sent as update bodies, and the two progress bars. */
module ApplicationGuidance {
  import opened Rubric
  import opened Records
  import opened Wrappers
  import opened Sequences

  // ---------------------------------------------------------------------
  // The application list.

  predicate IsLocked(app: Application) {
    app.isLocked
  }

  /** `res.data.applications.filter(app => app.isLocked)`. */
  function LockedApplications(apps: seq<Application>): seq<Application> {
    Filter(apps, IsLocked)
  }

  /** The page lists exactly the locked applications, in their order. */
  lemma LockedApplicationsSpec(apps: seq<Application>, app: Application)
    ensures Subsequence(LockedApplications(apps), apps)
    ensures app in LockedApplications(apps) <==> app in apps && app.isLocked
  {
    FilterSubsequence(apps, IsLocked);
    FilterComplete(apps, IsLocked, app);
  }

  /** `prev.map(app => app.id === updated.id ? updated : app)`. */
  function ReplaceApplication(apps: seq<Application>, updated: Application): (r: seq<Application>)
    ensures |r| == |apps|
    ensures forall i :: 0 <= i < |apps| ==> r[i] == if apps[i].id == updated.id then updated else apps[i]
  {
    seq(|apps|, i requires 0 <= i < |apps| => if apps[i].id == updated.id then updated else apps[i])
  }

  /** Replacing twice is replacing once, and the updated row is in the list
      exactly when its id was. */
  lemma ReplaceApplicationSpec(apps: seq<Application>, updated: Application)
    ensures ReplaceApplication(ReplaceApplication(apps, updated), updated) == ReplaceApplication(apps, updated)
    ensures updated in ReplaceApplication(apps, updated) <==> exists i :: 0 <= i < |apps| && apps[i].id == updated.id
  {
    var r := ReplaceApplication(apps, updated);
    if updated in r {
      var i :| 0 <= i < |r| && r[i] == updated;
      assert apps[i].id == updated.id;
    }
  }

  /** The page's state and its two updates; the response of each request is
      a parameter (`None` when it is not a success). */
  class GuidancePage {
    var applications: seq<Application>
    var selectedApplication: Option<Application>

    constructor ()
      ensures applications == [] && selectedApplication == None
    {
      applications := [];
      selectedApplication := None;
    }

    /** `loadApplications`: keeps the locked applications and selects the
        first one when nothing is selected yet. */
    method LoadApplications(reply: Option<seq<Application>>)
      modifies this
      ensures reply.None? ==> applications == old(applications) && selectedApplication == old(selectedApplication)
      ensures reply.Some? ==>
        && applications == LockedApplications(reply.value)
        && selectedApplication ==
             if |applications| > 0 && old(selectedApplication).None? then Some(applications[0]) else old(selectedApplication)
    {
      if reply.Some? {
        var lockedApps := LockedApplications(reply.value);
        applications := lockedApps;
        if |lockedApps| > 0 && selectedApplication.None? {
          selectedApplication := Some(lockedApps[0]);
        }
      }
    }

    /** `handleUpdateApplication`: nothing without a selection; otherwise
        the server's copy becomes the selection and replaces its row. */
    method HandleUpdateApplication(reply: Option<Application>)
      modifies this
      ensures old(selectedApplication).None? || reply.None? ==>
        applications == old(applications) && selectedApplication == old(selectedApplication)
      ensures old(selectedApplication).Some? && reply.Some? ==>
        selectedApplication == reply && applications == ReplaceApplication(old(applications), reply.value)
    {
      if selectedApplication.None? {
        return;
      }
      if reply.Some? {
        selectedApplication := reply;
        applications := ReplaceApplication(applications, reply.value);
      }
    }
  }

  // ---------------------------------------------------------------------
  // Checklist edits. Each returns the new list that the handler sends as
  // `{ tasks }` or `{ documents }`; an index that is out of range makes the
  // handler throw before sending anything, which is `None`.

  /** `handleTaskToggle(taskIndex)`: a copy of the list with the task's
      `completed` flipped. */
  method ToggleTask(tasks: seq<Task>, taskIndex: int) returns (updated: Option<seq<Task>>)
    ensures updated.Some? <==> 0 <= taskIndex < |tasks|
    ensures updated.Some? ==>
      && |updated.value| == |tasks|
      && updated.value[taskIndex] == tasks[taskIndex].(completed := !tasks[taskIndex].completed)
      && forall i :: 0 <= i < |tasks| && i != taskIndex ==> updated.value[i] == tasks[i]
  {
    if !(0 <= taskIndex < |tasks|) {
      return None;
    }
    var updatedTasks := new Task[|tasks|](i requires 0 <= i < |tasks| => tasks[i]);
    updatedTasks[taskIndex] := updatedTasks[taskIndex].(completed := !updatedTasks[taskIndex].completed);
    return Some(updatedTasks[..]);
  }

  /** `handleDocumentToggle(docIndex)`: a copy with `uploaded` flipped. */
  method ToggleDocument(documents: seq<Document>, docIndex: int) returns (updated: Option<seq<Document>>)
    ensures updated.Some? <==> 0 <= docIndex < |documents|
    ensures updated.Some? ==>
      && |updated.value| == |documents|
      && updated.value[docIndex] == documents[docIndex].(uploaded := !documents[docIndex].uploaded)
      && forall i :: 0 <= i < |documents| && i != docIndex ==> updated.value[i] == documents[i]
  {
    if !(0 <= docIndex < |documents|) {
      return None;
    }
    var updatedDocs := new Document[|documents|](i requires 0 <= i < |documents| => documents[i]);
    updatedDocs[docIndex] := updatedDocs[docIndex].(uploaded := !updatedDocs[docIndex].uploaded);
    return Some(updatedDocs[..]);
  }

  /** `handleAddTask`: the form's task, not completed, with the clock
      reading `now` as its id, appended. */
  function AddTask(tasks: seq<Task>, newTask: Task, now: int): (r: seq<Task>)
    ensures |r| == |tasks| + 1 && r[..|tasks|] == tasks
    ensures r[|tasks|] == newTask.(completed := false, id := now)
  {
    tasks + [newTask.(completed := false, id := now)]
  }

  /** `handleAddDocument`: the form's document, not uploaded, appended. */
  function AddDocument(documents: seq<Document>, newDocument: Document, now: int): (r: seq<Document>)
    ensures |r| == |documents| + 1 && r[..|documents|] == documents
    ensures r[|documents|] == newDocument.(uploaded := false, id := now)
  {
    documents + [newDocument.(uploaded := false, id := now)]
  }

  /** `tasks.filter((_, i) => i !== taskIndex)`. */
  function DeleteTask(tasks: seq<Task>, taskIndex: int): seq<Task> {
    if tasks == [] then []
    else if taskIndex == 0 then tasks[1..]
    else [tasks[0]] + DeleteTask(tasks[1..], taskIndex - 1)
  }

  /** Deleting removes exactly the task at the index and keeps the others in
      order; an index outside the list deletes nothing. */
  lemma {:induction false} DeleteTaskSpec(tasks: seq<Task>, taskIndex: int)
    ensures 0 <= taskIndex < |tasks| ==> DeleteTask(tasks, taskIndex) == tasks[..taskIndex] + tasks[taskIndex + 1..]
    ensures !(0 <= taskIndex < |tasks|) ==> DeleteTask(tasks, taskIndex) == tasks
  {
    if tasks != [] && taskIndex != 0 {
      DeleteTaskSpec(tasks[1..], taskIndex - 1);
      if 0 < taskIndex < |tasks| {
        assert tasks[..taskIndex] == [tasks[0]] + tasks[1..][..taskIndex - 1];
        assert tasks[taskIndex + 1..] == tasks[1..][taskIndex..];
      } else {
        assert tasks == [tasks[0]] + tasks[1..];
      }
    }
  }

  // ---------------------------------------------------------------------
  // Progress.

  predicate Done(t: Task) {
    t.completed
  }

  predicate Uploaded(d: Document) {
    d.uploaded
  }

  /** `getTaskProgress()`: the rounded share of completed tasks. */
  function TaskProgress(selected: Option<Application>): (r: nat)
    ensures r <= 100
    ensures selected.None? || selected.value.tasks == [] ==> r == 0
  {
    if selected.None? then 0
    else
      var tasks := selected.value.tasks;
      var total := |tasks|;
      var completed := |Filter(tasks, Done)|;
      if total > 0 then Percent(completed, total) else 0
  }

  /** `getDocumentProgress()`: the rounded share of uploaded documents. */
  function DocumentProgress(selected: Option<Application>): (r: nat)
    ensures r <= 100
    ensures selected.None? || selected.value.documents == [] ==> r == 0
  {
    if selected.None? then 0
    else
      var documents := selected.value.documents;
      var total := |documents|;
      var uploaded := |Filter(documents, Uploaded)|;
      if total > 0 then Percent(uploaded, total) else 0
  }

  /** Flipping one task changes the number of completed tasks by one. */
  lemma {:induction false} CompletedAfterToggle(tasks: seq<Task>, i: nat)
    requires i < |tasks|
    ensures var flipped := tasks[i := tasks[i].(completed := !tasks[i].completed)];
      |Filter(flipped, Done)| == |Filter(tasks, Done)| + (if tasks[i].completed then -1 else 1)
  {
    var flipped := tasks[i := tasks[i].(completed := !tasks[i].completed)];
    assert flipped[1..] == if i == 0 then tasks[1..] else tasks[1..][i - 1 := tasks[i].(completed := !tasks[i].completed)];
    if i > 0 {
      CompletedAfterToggle(tasks[1..], i - 1);
      assert tasks[1..][i - 1] == tasks[i];
    }
  }

  /** Completing a task never lowers the task progress bar, and reopening
      one never raises it. */
  lemma ToggleTaskProgress(app: Application, i: nat)
    requires i < |app.tasks|
    ensures var flipped := app.(tasks := app.tasks[i := app.tasks[i].(completed := !app.tasks[i].completed)]);
      if app.tasks[i].completed then TaskProgress(Some(flipped)) <= TaskProgress(Some(app))
      else TaskProgress(Some(flipped)) >= TaskProgress(Some(app))
  {
    var tasks := app.tasks;
    CompletedAfterToggle(tasks, i);
    var flipped := tasks[i := tasks[i].(completed := !tasks[i].completed)];
    if tasks[i].completed {
      PercentMonotone(|Filter(flipped, Done)|, |Filter(tasks, Done)|, |tasks|);
    } else {
      PercentMonotone(|Filter(tasks, Done)|, |Filter(flipped, Done)|, |tasks|);
    }
  }

  /** Every task done gives 100, none done gives 0. */
  lemma {:induction false} TaskProgressEnds(app: Application)
    requires app.tasks != []
    ensures (forall t :: t in app.tasks ==> t.completed) ==> TaskProgress(Some(app)) == 100
    ensures (forall t :: t in app.tasks ==> !t.completed) ==> TaskProgress(Some(app)) == 0
  {
    PercentEnds(|app.tasks|);
    FilterAllPass(app.tasks, Done);
    FilterNonePass(app.tasks, Done);
  }
}
