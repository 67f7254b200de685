/** The comment entity and the vocabulary the controllers share. */
module CommentModel {
  import opened PhpValues

  /** The lifecycle states of a comment (the PENDING, ACCEPTED and REJECTED constants of the comment model class). */
  datatype Status = Pending | Accepted | Rejected

  /** The logged-in shop customer, as the security context returns it. */
  datatype Customer = Customer(id: int)

  /** A persisted comment, as the getters of the model object return its columns. */
  datatype Comment = Comment(
    id: Value, ref: Value, refId: Value, customerId: Value, username: Value, email: Value,
    locale: Value, title: Value, content: Value, status: Value, verified: Value, rating: Value,
    abuse: Value)

  /** The eleven fields creation and update events carry through their setters. */
  datatype EventFields = EventFields(
    ref: Value, refId: Value, customerId: Value, username: Value, email: Value, locale: Value,
    title: Value, content: Value, status: Value, verified: Value, rating: Value)

  /** `findPk` on the comment table: the comment stored under a primary key. A null key
      finds nothing, since the query is never issued for it. */
  function FindPk(store: map<Value, Comment>, id: Value): (r: Option<Comment>)
    ensures r.Some? <==> id != Null && id in store
    ensures r.Some? ==> r.value == store[id]
  {
    if id != Null && id in store then Some(store[id]) else None
  }

  /** User-facing messages, kept as tokens for their translation keys; `Raw` carries an
      exception's own message, which the controllers pass through untranslated. */
  datatype Message =
    | ThankYou            // "Thank you for submitting your comment."
    | OnlineOnceVerified  // "Your comment will be put online once verified."
    | UnknownError        // "Sorry, an unknown error occurred. Please try again."
    | AbuseRegistered     // "Your request has been registered. Thank you."
    | AbuseNotValidated   // "Your request could not be validated. Try it later"
    | CommentDeleted      // "Your comment has been deleted."
    | CommentNotRemoved   // "Comment could not be removed. Please try later."
    | MissingParameters   // "Missing parameters"
    | Raw(text: string)
}
