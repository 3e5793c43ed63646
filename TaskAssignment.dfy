/*
 * TaskAssignment: the endpoint that assigns tasks. It dispatches on the request's
 * action: assigning a task to a given user, assigning it automatically to the
 * least-loaded user other than its creator, or reporting the workload table.
 *
 * The database answers are parameters: whether the caller is an administrator,
 * the stored task (`None` when it is not found), the workload table (`None` when the
 * query fails) and whether the update and the distribution query succeeded.
 */
module TaskAssignment {
  import opened Base

  /** `Number.MAX_VALUE`, the largest finite double, `(2 - 2^-52) * 2^1023`. */
  const MaxValue: real := 179769313486231570814527423731704356798070567525844996598917476803157260780028538760589558632766878171540458953514382464234321326889464182768467546703537516986049910576551282076245490090389328944075868508455133942304583236903222948165808559332123348274797826204144723168738177180919299881250404026184124858368.0

  /** One row of `get_user_workload`. */
  datatype Workload = Workload(id: string, email: string, activeTasks: int, totalHours: real)

  /** `active_tasks_count * 5 + total_hours`. */
  function Score(w: Workload): real
  {
    w.activeTasks as real * 5.0 + w.totalHours
  }

  /** Row `k` is the one the loop picks: not the creator, with a score below the
   * initial bound, no higher than any other candidate's and strictly lower than every
   * earlier candidate's. */
  ghost predicate IsLeastLoaded(users: seq<Workload>, creator: string, k: int)
  {
    0 <= k < |users| && users[k].id != creator && Score(users[k]) < MaxValue
    && (forall j :: 0 <= j < |users| && users[j].id != creator ==> Score(users[k]) <= Score(users[j]))
    && (forall j :: 0 <= j < k && users[j].id != creator ==> Score(users[k]) < Score(users[j]))
  }

  /** No row can be picked: every candidate's score reaches the initial bound. */
  ghost predicate NoneEligible(users: seq<Workload>, creator: string)
  {
    forall j :: 0 <= j < |users| && users[j].id != creator ==> Score(users[j]) >= MaxValue
  }

  /** The auto-assign loop: the index of the user with the lowest workload score,
   * skipping the creator; the first of several equal minima wins. */
  method LeastLoaded(users: seq<Workload>, creator: string) returns (pick: Option<nat>)
    ensures pick.Some? ==> IsLeastLoaded(users, creator, pick.value)
    ensures pick.None? <==> NoneEligible(users, creator)
  {
    pick := None;
    var lowest := MaxValue;
    for i := 0 to |users|
      invariant pick.None? ==> lowest == MaxValue && forall j :: 0 <= j < i && users[j].id != creator ==> Score(users[j]) >= MaxValue
      invariant pick.Some? ==> pick.value < i && lowest == Score(users[pick.value]) && users[pick.value].id != creator
      invariant pick.Some? ==> lowest < MaxValue
      invariant pick.Some? ==> forall j :: 0 <= j < i && users[j].id != creator ==> lowest <= Score(users[j])
      invariant pick.Some? ==> forall j :: 0 <= j < pick.value && users[j].id != creator ==> lowest < Score(users[j])
    {
      if users[i].id == creator {
        continue;
      }
      var score := Score(users[i]);
      if score < lowest {
        lowest := score;
        pick := Some(i);
      }
    }
  }

  /** At most one row satisfies the tie-breaking rule, so the choice is determined. */
  lemma LeastLoadedUnique(users: seq<Workload>, creator: string, k1: int, k2: int)
    requires IsLeastLoaded(users, creator, k1) && IsLeastLoaded(users, creator, k2)
    ensures k1 == k2
  {
  }

  /** The body of a request. */
  datatype Request = Request(action: Option<string>, taskId: Option<string>, assigneeId: Option<string>,
                             projectFilter: Option<string>)

  /** One row of `tasks`: its creator and title. */
  datatype Task = Task(createdBy: string, title: string)

  /** What the database answers. */
  datatype Db = Db(isAdmin: bool, task: Option<Task>, workload: Option<seq<Workload>>,
                   updateOk: bool, distributionOk: bool)

  /** The notification inserted for a new assignee. */
  datatype Notification = Notification(taskId: string, userId: string, message: string)

  /** The response: its status, the assignee, and the notification
   * sent. */
  datatype Response = Response(status: int, assignee: Option<string>, notification: Option<Notification>)

  function Fail(status: int): Response
  {
    Response(status, None, None)
  }

  /** The caller may make the assignment: an administrator or its creator. */
  predicate MayAssign(isAdmin: bool, task: Task, caller: string)
  {
    isAdmin || task.createdBy == caller
  }

  /** `handleAssignTask`. */
  function AssignTask(taskId: string, assigneeId: string, caller: string, db: Db): (r: Response)
    ensures r.status == 200 <==> db.task.Some? && MayAssign(db.isAdmin, db.task.value, caller) && db.updateOk
    ensures r.status == 200 ==> r.assignee == Some(assigneeId) && r.notification.Some?
                                && r.notification.value.userId == assigneeId && r.notification.value.taskId == taskId
    ensures r.status != 200 ==> r.assignee == None && r.notification == None
  {
    if db.task.None? then Fail(404)
    else if !MayAssign(db.isAdmin, db.task.value, caller) then Fail(403)
    else if !db.updateOk then Fail(500)
    else
      Response(200, Some(assigneeId),
               Some(Notification(taskId, assigneeId, "You have been assigned to task \"" + db.task.value.title + "\"")))
  }

  /** `handleAutoAssign`. */
  method AutoAssign(taskId: string, caller: string, db: Db) returns (r: Response)
    ensures db.task.None? ==> r == Fail(404)
    ensures db.task.Some? && !MayAssign(db.isAdmin, db.task.value, caller) ==> r == Fail(403)
    ensures db.task.Some? && MayAssign(db.isAdmin, db.task.value, caller) && db.workload.None? ==> r == Fail(500)
    ensures (db.task.Some? && MayAssign(db.isAdmin, db.task.value, caller) && db.workload.Some?
             && NoneEligible(db.workload.value, db.task.value.createdBy)) ==> r == Fail(400)
    ensures r.status == 200 <==>
              db.task.Some? && MayAssign(db.isAdmin, db.task.value, caller) && db.workload.Some?
              && !NoneEligible(db.workload.value, db.task.value.createdBy) && db.updateOk
    ensures r.status == 200 ==>
              r.assignee.Some? && r.assignee.value != db.task.value.createdBy && r.notification.Some?
              && r.notification.value.userId == r.assignee.value && r.notification.value.taskId == taskId
              && exists k :: IsLeastLoaded(db.workload.value, db.task.value.createdBy, k)
                             && db.workload.value[k].id == r.assignee.value
    ensures r.status != 200 ==> r.assignee == None && r.notification == None
  {
    if db.task.None? {
      return Fail(404);
    }
    var task := db.task.value;
    if !MayAssign(db.isAdmin, task, caller) {
      return Fail(403);
    }
    if db.workload.None? {
      return Fail(500);
    }
    var pick := LeastLoaded(db.workload.value, task.createdBy);
    if pick.None? {
      return Fail(400);
    }
    if !db.updateOk {
      return Fail(500);
    }
    var chosen := db.workload.value[pick.value];
    var message := "You have been automatically assigned to task \"" + task.title + "\" based on workload balancing";
    r := Response(200, Some(chosen.id), Some(Notification(taskId, chosen.id, message)));
  }

  /** `handleGetWorkload`. */
  function GetWorkload(db: Db): (r: Response)
    ensures r.status == 200 <==> db.isAdmin && db.workload.Some? && db.distributionOk
    ensures !db.isAdmin ==> r.status == 403
    ensures r.assignee == None && r.notification == None
  {
    if !db.isAdmin then Fail(403)
    else if db.workload.None? || !db.distributionOk then Fail(500)
    else Response(200, None, None)
  }

  /** The endpoint. `httpMethod` is the request's method and `user` the signed-in
   * user's id. */
  method Handle(httpMethod: string, user: Option<string>, req: Request, db: Db) returns (r: Response)
    ensures httpMethod == "OPTIONS" ==> r == Response(200, None, None)
    ensures httpMethod != "OPTIONS" && user.None? ==> r == Fail(401)
    ensures httpMethod != "OPTIONS" && user.Some? && !Truthy(req.action) ==> r == Fail(400)
    ensures httpMethod != "OPTIONS" && user.Some? && Truthy(req.action) ==>
              var action := req.action.value;
              (action == "assign_task" ==>
                 if !Truthy(req.taskId) || !Truthy(req.assigneeId) then r == Fail(400)
                 else r == AssignTask(req.taskId.value, req.assigneeId.value, user.value, db))
              && (action == "auto_assign" && !Truthy(req.taskId) ==> r == Fail(400))
              && (action == "get_workload" ==> r == GetWorkload(db))
              && (action !in {"assign_task", "auto_assign", "get_workload"} ==> r == Fail(400))
    ensures httpMethod != "OPTIONS" && user.Some? && req.action == Some("auto_assign") && Truthy(req.taskId) ==>
              var caller := user.value;
              (db.task.None? ==> r == Fail(404))
              && (db.task.Some? && !MayAssign(db.isAdmin, db.task.value, caller) ==> r == Fail(403))
              && (db.task.Some? && MayAssign(db.isAdmin, db.task.value, caller) && db.workload.None? ==> r == Fail(500))
              && ((db.task.Some? && MayAssign(db.isAdmin, db.task.value, caller) && db.workload.Some?
                   && NoneEligible(db.workload.value, db.task.value.createdBy)) ==> r == Fail(400))
              && (r.status == 200 <==>
                    db.task.Some? && MayAssign(db.isAdmin, db.task.value, caller) && db.workload.Some?
                    && !NoneEligible(db.workload.value, db.task.value.createdBy) && db.updateOk)
              && (r.status == 200 ==>
                    r.assignee.Some? && r.assignee.value != db.task.value.createdBy && r.notification.Some?
                    && r.notification.value.userId == r.assignee.value && r.notification.value.taskId == req.taskId.value
                    && exists k :: IsLeastLoaded(db.workload.value, db.task.value.createdBy, k)
                                   && db.workload.value[k].id == r.assignee.value)
              && (r.status != 200 ==> r.assignee == None && r.notification == None)
  {
    if httpMethod == "OPTIONS" {
      return Response(200, None, None);
    }
    if user.None? {
      return Fail(401);
    }
    if !Truthy(req.action) {
      return Fail(400);
    }
    var action := req.action.value;
    if action == "assign_task" {
      if !Truthy(req.taskId) || !Truthy(req.assigneeId) {
        return Fail(400);
      }
      r := AssignTask(req.taskId.value, req.assigneeId.value, user.value, db);
    } else if action == "auto_assign" {
      if !Truthy(req.taskId) {
        return Fail(400);
      }
      r := AutoAssign(req.taskId.value, user.value, db);
    } else if action == "get_workload" {
      r := GetWorkload(db);
    } else {
      r := Fail(400);
    }
  }

  /** Neither kind of assignment lets a caller who is neither an administrator nor the
   * creator through. */
  lemma AssignForbidden(taskId: string, assigneeId: string, caller: string, db: Db)
    requires db.task.Some? && !db.isAdmin && db.task.value.createdBy != caller
    ensures AssignTask(taskId, assigneeId, caller, db) == Fail(403)
  {
  }
}
