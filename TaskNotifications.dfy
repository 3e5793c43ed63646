/*
 * TaskNotifications: the endpoint that sends task notifications. It creates notifications for a
 * task's recipients, marks a caller's notifications for a task as read, and lists
 * the caller's notifications with the number still unread.
 *
 * The database answers are parameters: the stored task (`None` when it is not found),
 * whether the read-mark update succeeded, and the fetched notifications (`None`
 * when the query fails).
 */
module TaskNotifications {
  import opened Base

  /** One row of `tasks`: its id, title, creator and assignee. */
  datatype Task = Task(id: string, title: string, createdBy: Option<string>, assignedTo: Option<string>)

  /** A stored notification as fetched. */
  datatype Stored = Stored(taskId: string, userId: string, message: string, isRead: bool)

  /** A notification the endpoint inserts. */
  datatype NewNotification = NewNotification(taskId: string, userId: string, message: string, isRead: bool)

  /** The recipients `handleCreateNotification` builds: the given user alone, or else the
   * creator (if set) followed by the assignee (if set and not the creator). */
  method Recipients(task: Task, userId: Option<string>) returns (recipients: seq<string>)
    ensures Truthy(userId) ==> recipients == [userId.value]
    ensures !Truthy(userId) ==>
              (Truthy(task.createdBy) ==> |recipients| >= 1 && recipients[0] == task.createdBy.value)
              && (forall x :: x in recipients <==>
                    (Truthy(task.createdBy) && x == task.createdBy.value)
                    || (Truthy(task.assignedTo) && x == task.assignedTo.value))
    ensures |recipients| <= 2 && NoDuplicates(recipients)
    ensures forall i :: 0 <= i < |recipients| ==> recipients[i] != ""
  {
    recipients := [];
    if Truthy(userId) {
      recipients := recipients + [userId.value];
    } else {
      if Truthy(task.createdBy) {
        recipients := recipients + [task.createdBy.value];
      }
      if Truthy(task.assignedTo) && task.assignedTo != task.createdBy {
        recipients := recipients + [task.assignedTo.value];
      }
    }
  }

  /** `customMessage || `Task "${task.title}" has been updated.``. */
  function Message(custom: Option<string>, title: string): (m: string)
    ensures Truthy(custom) ==> m == custom.value
    ensures !Truthy(custom) ==> m == "Task \"" + title + "\" has been updated."
  {
    if Truthy(custom) then custom.value else "Task \"" + title + "\" has been updated."
  }

  /** One unread notification per recipient, all with the same message. */
  function NotificationsFor(task: Task, recipients: seq<string>, message: string): (r: seq<NewNotification>)
    ensures |r| == |recipients|
    ensures forall i :: 0 <= i < |r| ==> r[i] == NewNotification(task.id, recipients[i], message, false)
  {
    seq(|recipients|, i requires 0 <= i < |recipients| => NewNotification(task.id, recipients[i], message, false))
  }

  predicate IsUnread(n: Stored)
  {
    !n.isRead
  }

  predicate IsRead(n: Stored)
  {
    n.isRead
  }

  /** `unread_count`: the fetched notifications whose `is_read` is false. */
  function UnreadCount(fetched: seq<Stored>): (n: nat)
    ensures n <= |fetched|
  {
    Count(fetched, IsUnread)
  }

  /** Read and unread notifications add up to all that were fetched. */
  lemma UnreadCountComplement(fetched: seq<Stored>)
    ensures UnreadCount(fetched) + Count(fetched, IsRead) == |fetched|
  {
    CountSplit(fetched, IsUnread, IsRead);
  }

  /** The body of a request. */
  datatype Request = Request(action: Option<string>, taskId: Option<string>, userId: Option<string>,
                             message: Option<string>)

  /** The response: its status, the notifications inserted, the unread count reported. */
  datatype Response = Response(status: int, inserted: seq<NewNotification>, unread: Option<nat>)

  function Fail(status: int): Response
  {
    Response(status, [], None)
  }

  /** The endpoint. `user` is the signed-in user's id. */
  method Handle(httpMethod: string, user: Option<string>, req: Request, task: Option<Task>,
                markOk: bool, fetched: Option<seq<Stored>>) returns (r: Response)
    ensures httpMethod == "OPTIONS" ==> r == Response(200, [], None)
    ensures httpMethod != "OPTIONS" && user.None? ==> r == Fail(401)
    ensures httpMethod != "OPTIONS" && user.Some? && (!Truthy(req.action) || !Truthy(req.taskId)) ==> r == Fail(400)
    ensures httpMethod != "OPTIONS" && user.Some? && Truthy(req.action) && Truthy(req.taskId) ==>
              (task.None? ==> r == Fail(404))
              && (task.Some? && req.action.value !in {"create_notification", "mark_as_read", "get_notifications"} ==>
                    r == Fail(400))
              && (task.Some? && req.action.value == "create_notification" ==>
                    r.status == 200 && r.unread == None
                    && forall i :: 0 <= i < |r.inserted| ==>
                         r.inserted[i].taskId == task.value.id && !r.inserted[i].isRead
                         && r.inserted[i].message == Message(req.message, task.value.title))
              && (task.Some? && req.action.value == "mark_as_read" ==>
                    r == (if markOk then Response(200, [], None) else Fail(500)))
              && (task.Some? && req.action.value == "get_notifications" ==>
                    r == (if fetched.Some? then Response(200, [], Some(UnreadCount(fetched.value))) else Fail(500)))
    ensures httpMethod != "OPTIONS" && Truthy(user) && Truthy(req.action) && Truthy(req.taskId) && task.Some?
            && req.action.value == "create_notification" ==>
              |r.inserted| == 1 && r.inserted[0].userId == (if Truthy(req.userId) then req.userId.value else user.value)
  {
    if httpMethod == "OPTIONS" {
      return Response(200, [], None);
    }
    if user.None? {
      return Fail(401);
    }
    if !Truthy(req.action) || !Truthy(req.taskId) {
      return Fail(400);
    }
    if task.None? {
      return Fail(404);
    }
    var action := req.action.value;
    if action == "create_notification" {
      var target := if Truthy(req.userId) then req.userId else user;
      var recipients := Recipients(task.value, target);
      r := Response(200, NotificationsFor(task.value, recipients, Message(req.message, task.value.title)), None);
    } else if action == "mark_as_read" {
      r := if markOk then Response(200, [], None) else Fail(500);
    } else if action == "get_notifications" {
      r := if fetched.Some? then Response(200, [], Some(UnreadCount(fetched.value))) else Fail(500);
    } else {
      r := Fail(400);
    }
  }
}
