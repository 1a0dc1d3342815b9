/** The client-side mirror of the vote toggle: the upvote buttons for
    projects and for forum threads.

    Each button keeps an optimistic `{count, upvoted}` pair. A click by a
    signed-out visitor navigates to the sign-in page; a click by a signed-in
    user applies the reducer with the negated flag and calls the server
    action. While that call is pending the button is disabled. */
module Optimistic {
  import opened Wrappers
  import opened Model
  import opened Votes

  /** The optimistic state a button shows. */
  datatype ButtonState = ButtonState(count: int, upvoted: bool)

  /** The reducer: set the flag to `newUpvoted` and move the count one step
      in that direction. */
  function Reduce(state: ButtonState, newUpvoted: bool): (r: ButtonState)
    ensures r.upvoted == newUpvoted
    ensures newUpvoted ==> r.count == state.count + 1
    ensures !newUpvoted ==> r.count == state.count - 1
  {
    ButtonState(if newUpvoted then state.count + 1 else state.count - 1, newUpvoted)
  }

  /** What a click does: navigate to sign-in, or show `shown` and call the
      server toggle. */
  datatype ClickOutcome = GoToSignIn(url: string) | CallServer(shown: ButtonState)

  /** Where a signed-out click sends the visitor, per button. */
  function SignInUrl(kind: TargetKind): string {
    match kind
    case OnProject => "/sign-in?callbackUrl=/"
    case OnThread => "/sign-in?callbackUrl=/forum"
  }

  /** `handleUpvote` for a button of `kind`. A disabled (pending) button
      ignores the click, which is `None`. */
  function Click(kind: TargetKind, pending: bool, signedIn: bool, state: ButtonState): (r: Option<ClickOutcome>)
    ensures pending <==> r.None?
    ensures !pending && !signedIn ==> r == Some(GoToSignIn(SignInUrl(kind)))
    ensures !pending && signedIn ==>
              && r.Some? && r.value.CallServer?
              && r.value.shown.upvoted == !state.upvoted
              && r.value.shown.count == state.count + (if state.upvoted then -1 else 1)
  {
    if pending then None
    else if !signedIn then Some(GoToSignIn(SignInUrl(kind)))
    else Some(CallServer(Reduce(state, !state.upvoted)))
  }

  /** The button is disabled exactly while a transition is pending. */
  predicate Disabled(pending: bool) {
    pending
  }

  /** Two successive applications of the reducer, each negating the flag,
      restore the original state. */
  lemma ReduceTwiceRestores(state: ButtonState)
    ensures Reduce(Reduce(state, !state.upvoted), state.upvoted) == state
  {
  }

  /** Two signed-in clicks, each completing before the next, bring the
      button back to where it started. */
  lemma ClickTwiceRestores(kind: TargetKind, state: ButtonState)
    ensures var first := Click(kind, false, true, state).value.shown;
            Click(kind, false, true, first).value.shown == state
  {
  }

  /** The state a button shows for a target while it agrees with the store. */
  function Mirror(db: Db, kind: TargetKind, user: Id, t: Id): (s: ButtonState)
    requires Counter(db, kind, t).Some?
    ensures s.count == Counter(db, kind, t).value
    ensures s.upvoted <==> Fact(user, t) in Facts(db, kind)
  {
    ButtonState(Counter(db, kind, t).value, Fact(user, t) in Facts(db, kind))
  }

  /** When the button mirrors the store, the optimistic guess is exactly
      what the server answers: the same flag and the same count. */
  lemma OptimisticMatchesServer(db: Db, kind: TargetKind, user: Id, t: Id)
    requires Counter(db, kind, t).Some?
    ensures var (db', r) := Toggle(db, kind, Some(user), t);
            && r.Success?
            && Click(kind, false, true, Mirror(db, kind, user, t)) == Some(CallServer(ButtonState(r.value.newCount, r.value.upvoted)))
            && Mirror(db', kind, user, t) == ButtonState(r.value.newCount, r.value.upvoted)
  {
  }
}
