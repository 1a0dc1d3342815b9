/** Project comments: `addComment` and `deleteComment`. */
module Comments {
  import opened Wrappers
  import opened Model
  import Text

  datatype CommentError =
    | NotSignedIn | EmptyText | TooLong | ProjectNotFound | ParentNotFound | NotAuthor | CommentNotFound | StoreFailure

  /** The message `addComment` answers a failure with. */
  function AddCommentMessage(e: CommentError): string {
    match e
    case NotSignedIn => "You must be signed in to comment"
    case EmptyText => "Comment cannot be empty"
    case TooLong => "Comment is too long (max 1000 characters)"
    case ProjectNotFound => "Project not found"
    case ParentNotFound => "Parent comment not found"
    case NotAuthor => "You can only delete your own comments"
    case CommentNotFound => "Comment not found"
    case StoreFailure => "Something went wrong. Please try again."
  }

  /** The message `deleteComment` answers a failure with; its sign-in and
      store-failure messages are shorter than those of `addComment`. */
  function DeleteCommentMessage(e: CommentError): string {
    match e
    case NotSignedIn => "You must be signed in"
    case StoreFailure => "Something went wrong"
    case _ => AddCommentMessage(e)
  }

  /** A stored comment as returned to the client, with an empty list of
      replies. */
  datatype CommentView = CommentView(comment: Comment, replies: seq<Comment>)

  /** The parent id as the action reads it: absent or empty means "not a
      reply". */
  function ParentOf(parentId: Option<string>): (r: Option<Id>)
    ensures r.None? <==> parentId.None? || parentId.value == ""
    ensures r.Some? ==> r == parentId
  {
    if parentId.None? then None else EmptyToNone(parentId.value)
  }

  /** `addComment`: the checks run in order (signed in, not blank, at most
      1000 characters before trimming, project exists, parent exists) and
      the first failure decides. The stored text is trimmed. The parent is
      only required to exist; it may belong to another project. */
  function AddComment(db: Db, session: Session, projectId: Id, text: string, parentId: Option<string>, newId: Id)
    : (out: (Db, Result<CommentView, CommentError>))
    ensures out.1.Failure? ==> out.0 == db
    ensures session.None? ==> out.1 == Failure(NotSignedIn)
    ensures session.Some? && Text.IsBlank(text) ==> out.1 == Failure(EmptyText)
    ensures session.Some? && !Text.IsBlank(text) && |text| > 1000 ==> out.1 == Failure(TooLong)
    ensures session.Some? && !Text.IsBlank(text) && |text| <= 1000 && projectId !in db.projects
            ==> out.1 == Failure(ProjectNotFound)
    ensures session.Some? && !Text.IsBlank(text) && |text| <= 1000 && projectId in db.projects
            && ParentOf(parentId).Some? && ParentOf(parentId).value !in db.comments
            ==> out.1 == Failure(ParentNotFound)
    ensures out.1.Success? <==>
              && session.Some? && !Text.IsBlank(text) && |text| <= 1000 && projectId in db.projects
              && (ParentOf(parentId).None? || ParentOf(parentId).value in db.comments)
              && newId !in db.comments
    ensures out.1.Success? ==>
              && var c := out.1.value.comment;
                 && c == Comment(newId, projectId, session.value, Text.Trim(text), ParentOf(parentId))
                 && c.text != ""
                 && out.1.value.replies == []
                 && out.0 == db.(comments := db.comments[newId := c])
  {
    Text.TrimEmptyIffBlank(text);
    if session.None? then (db, Failure(NotSignedIn))
    else if Text.Trim(text) == "" then (db, Failure(EmptyText))
    else if |text| > 1000 then (db, Failure(TooLong))
    else if projectId !in db.projects then (db, Failure(ProjectNotFound))
    else if ParentOf(parentId).Some? && ParentOf(parentId).value !in db.comments then (db, Failure(ParentNotFound))
    else if newId in db.comments then (db, Failure(StoreFailure))
    else
      var c := Comment(newId, projectId, session.value, Text.Trim(text), ParentOf(parentId));
      (db.(comments := db.comments[newId := c]), Success(CommentView(c, [])))
  }

  /** `deleteComment`: signed in, the comment exists, and the caller wrote
      it; then exactly that comment is removed. */
  function DeleteComment(db: Db, session: Session, commentId: Id): (out: (Db, Result<(), CommentError>))
    ensures out.1.Failure? ==> out.0 == db
    ensures session.None? ==> out.1 == Failure(NotSignedIn)
    ensures session.Some? && commentId !in db.comments ==> out.1 == Failure(CommentNotFound)
    ensures out.1.Success? <==>
              session.Some? && commentId in db.comments && db.comments[commentId].userId == session.value
    ensures out.1.Success? ==> out.0 == db.(comments := db.comments - {commentId})
  {
    if session.None? then (db, Failure(NotSignedIn))
    else if commentId !in db.comments then (db, Failure(CommentNotFound))
    else if db.comments[commentId].userId != session.value then (db, Failure(NotAuthor))
    else (db.(comments := db.comments - {commentId}), Success(()))
  }

  /** Deleting a comment one has just added restores the store. */
  lemma AddThenDeleteRestores(db: Db, user: Id, projectId: Id, text: string, parentId: Option<string>, newId: Id)
    ensures var (db1, r1) := AddComment(db, Some(user), projectId, text, parentId, newId);
            r1.Success? ==> DeleteComment(db1, Some(user), newId) == (db, Success(()))
  {
    var (db1, r1) := AddComment(db, Some(user), projectId, text, parentId, newId);
    if r1.Success? {
      AddedThenRemoved(db.comments, newId, r1.value.comment);
    }
  }

  lemma AddedThenRemoved(comments: map<Id, Comment>, id: Id, c: Comment)
    requires id !in comments
    ensures comments[id := c] - {id} == comments
  {
  }

  /** Nobody but its author can delete a comment. */
  lemma OnlyAuthorDeletes(db: Db, user: Id, commentId: Id)
    requires commentId in db.comments && db.comments[commentId].userId != user
    ensures DeleteComment(db, Some(user), commentId) == (db, Failure(NotAuthor))
  {
  }

  /** A reply may name a parent comment on a different project. */
  lemma ParentMayBeOnOtherProject(db: Db, user: Id, projectId: Id, text: string, parentId: Id, newId: Id)
    requires !Text.IsBlank(text) && |text| <= 1000
    requires projectId in db.projects && parentId in db.comments && newId !in db.comments
    requires parentId != "" && db.comments[parentId].projectId != projectId
    ensures var (db', r) := AddComment(db, Some(user), projectId, text, Some(parentId), newId);
            r.Success? && db'.comments[newId].projectId != db'.comments[parentId].projectId
  {
    assert ParentOf(Some(parentId)) == Some(parentId);
  }

  /** Ideographic spaces count as white space, so a comment of nothing
      else is rejected as empty. */
  lemma IdeographicSpacesAreEmpty(db: Db, user: Id, projectId: Id, parentId: Option<string>, newId: Id)
    ensures AddComment(db, Some(user), projectId, "\U{3000}\U{3000}", parentId, newId) == (db, Failure(EmptyText))
  {
  }
}
