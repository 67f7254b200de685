# Comment module: admission and moderation policy in Dafny

This project models the decision logic of a shop platform's comment module. Visitors
attach comments, with an optional star rating, to any referenceable entity (a "ref" such
as a product, plus its id). Staff moderate the comments and switch commenting on or off
per entity. The model covers:

- **Front-office endpoints** (`FrontCommentController`). Creating a comment means:
  resolving the definition, choosing the validation groups, binding the verified flag,
  the customer and the locale, computing the initial status, and shaping the
  `{success, messages}` envelope. The module also covers self-service deletion with its
  ownership check, abuse reports, and the comment list with its paging defaults.
- **Back-office endpoints** (`BackCommentController`). These are: status changes; the
  per-entity activation flag, stored as generic metadata (`MetaDataStore`); the module
  configuration save; the copy of fields between a comment, its edit form and the
  create/update events; and loading the edited comment.
- **The back-office creation form** (`CommentCreationForm`). This is its field
  constraints, written as a validator over the submitted record.
- **The captcha gate** (`AddCommentListener`). This listener runs on the creation event
  at priority 256. `EventDispatch` holds the priority-ordered listener model, and
  `CreationPipeline` composes the gate with `createAction` end to end.
- **PHP semantics the code depends on** (`PhpValues`, `HttpRequest`): truthiness, the
  loose `==` of `switch`, integer numeric strings, a missing array key reading as null,
  and `Request::get` consulting attributes, then query, then body.

Everything the actions consult is a parameter: definition resolution, form validation,
the creation/status/delete/abuse listeners, the comment table, the ReCaptcha state and
the email-format test. Each operation is a pure function from those inputs to a
response (and a new table, where one is written).

Some behaviours of the code worth stating up front:

- An abuse report whose listener throws is answered `success: false` with the generic
  refusal message (Controller/Front/CommentController.php:124-131).
- The `ref_id` and `rating` range constraints, `Length` on the username and `Email` on
  the email all let a null value through, and `Email` also lets the empty string
  through (Form/CommentCreationForm.php:55-70 and 112-131).
- Clearing an activation flag that is not set deletes no row and so answers
  `success: false` (Controller/Back/CommentController.php:352-361).
- The "username and email required when anonymous" rule belongs to the front form's
  `anonymous` validation group. That form is not part of this model; only the choice of
  groups is modelled (Controller/Front/CommentController.php:171-182).

## Model

| member | source | states |
|---|---|---|
| FrontCommentController.ValidationGroups | Controller/Front/CommentController.php:171-182 | The groups always start with `Default`. `anonymous` is present iff the definition's customer is null, and `rating` iff the ref takes no rating. No group is listed twice. |
| FrontCommentController.InitialStatus | Controller/Front/CommentController.php:203-207 | A new comment starts ACCEPTED iff the definition configuration's `moderate` is falsy, otherwise PENDING, and never REJECTED. |
| FrontCommentController.CreationEvent | Controller/Front/CommentController.php:194-209 | The dispatched event has `verified` equal to the definition's. It has the id of the definition's customer when there is one and the form's value otherwise. It carries the request locale, the initial status, and every other bound field unchanged. |
| FrontCommentController.CreateAction | Controller/Front/CommentController.php:140-268 | The resolution listeners decide on a definition event holding the submitted `ref` and `ref_id`, the logged-in customer and the module configuration (`getDefinition`). A silent definition failure, and only that, is access-denied. An explicit one returns exactly its message. Success holds iff the definition resolved, the form validated and a listener created the comment. On success, the thanks come first and a second message is added iff moderated. Form errors and listener exceptions return their own message; no comment gives the unknown-error message. |
| FrontCommentController.FailedDefinitionCreatesNothing | Controller/Front/CommentController.php:149-169 | After a definition failure, the answer does not depend on form validation or on the creation listeners, so nothing is validated or created. |
| FrontCommentController.CreationDispatchesOneEvent | Controller/Front/CommentController.php:191-248 | Creation consults the listeners on one event only, the one built from the definition, the form and the locale. |
| FrontCommentController.ModeratedAnonymousSubmission | Controller/Front/CommentController.php:171-230 | With nobody logged in and a definition without a customer, a moderated, successful submission is validated with the `anonymous` group. Its event goes out PENDING with the form's customer id, and the answer is thanks plus "online once verified". |
| FrontCommentController.GetAction | Controller/Front/CommentController.php:61-92 | The definition event holds `ref` and `ref_id` as `Request::get` finds them, the logged-in customer and the module configuration (`getDefinition`, lines 253-268). Only a silent definition failure is refused; an explicit one still renders. The render gets ref and ref_id from the request, `start` defaulting to 0 and `count` to 10. |
| FrontCommentController.AbuseAction | Controller/Front/CommentController.php:97-134 | Success holds iff the form validated and the abuse listener completed. The message is the thanks on success and the generic refusal otherwise, never the exception's text. |
| FrontCommentController.DeleteAction | Controller/Front/CommentController.php:273-318 | Corrected version of the written code. Deletion succeeds iff the comment exists, its customer id is identical to the logged-in customer's, and the delete listener returns the comment. Every other case, a missing customer included, gets the one refusal message. |
| FrontCommentController.DeleteAgreesWhereWrittenAnswers | Controller/Front/CommentController.php:282-307 | The corrected deletion answers exactly as the written code wherever the written code answers. The written code fails to answer exactly when nobody is logged in and the comment exists. |
| FrontCommentController.DeleteActionAsWritten | Controller/Front/CommentController.php:273-318 | As written: an uncaught error escapes iff nobody is logged in and the comment exists. Otherwise the answer succeeds iff the logged-in customer owns the comment and the delete listener returns it, with the thanks on success and the refusal otherwise. |
| FrontCommentController.AnonymousDeleteEscapes | Controller/Front/CommentController.php:283-289 | Written as it is, deleting any existing comment with nobody logged in ends in an uncaught error, not a JSON answer, whatever the delete listener does. |
| FrontCommentController.NonOwnerLearnsNothing | Controller/Front/CommentController.php:288-315 | A non-owner always gets the same refusal, whether the comment exists or not and whatever the delete listener would do. |
| BackCommentController.ApplyActivation | Controller/Back/CommentController.php:346-364 | Setting stores the posted text under the flag's key and succeeds. Clearing removes every row of the flag and succeeds iff exactly one row went. No case changes nothing and fails. Other keys are untouched, and the reported status is the stored value, or "-1" if none. |
| BackCommentController.ActivationAction | Controller/Back/CommentController.php:333-367 | A request that posts no status matches no case: the table is unchanged, the answer is a failure, and the status reported is the flag as stored. |
| BackCommentController.ActivationCaseOf | Controller/Back/CommentController.php:346-352 | Under the switch's loose comparison, a posted integer-form string (surrounding whitespace and a sign allowed) sets the flag iff its value is 0 or 1 and clears it iff its value is -1. A missing status and any non-numeric text match no case. |
| BackCommentController.ClearSucceedsIffPresent | Controller/Back/CommentController.php:352-361 | On a table with one row per key, clearing succeeds iff the flag was stored. Clearing an absent flag fails and changes nothing. |
| BackCommentController.SetThenClear | Controller/Back/CommentController.php:346-364 | Setting "1" and then "-1" succeeds twice and reports "1" and then "-1". It keeps one row per key, leaves no row for the flag, and, when the flag was absent before, every key reads as it did before. |
| BackCommentController.ChangeStatusAction | Controller/Back/CommentController.php:286-328 | A missing `id` or `status` gives `success: false` with "Missing parameters". Success holds iff both are present and the listener returns the comment, and the answer then echoes the id and the comment's new status. A listener exception is reported with its message, and a listener that leaves no comment ends in an uncaught error. |
| BackCommentController.MissingParametersDispatchNothing | Controller/Back/CommentController.php:301-325 | Without `id` or `status`, the answer does not depend on the status listener, so nothing is dispatched. |
| BackCommentController.SaveConfiguration | Controller/Back/CommentController.php:378-437 | A valid form writes the four boolean settings as "1"/"0" by truthiness and the other three verbatim, leaves every other variable alone, and redirects. An invalid form writes nothing and shows its message, unless the message is falsy ("" or "0"), in which case it redirects. |
| BackCommentController.ConfigFlagsRoundTrip | Controller/Back/CommentController.php:395-411 | Reading a saved boolean setting back by truthiness gives the truthiness of what was submitted. |
| BackCommentController.SaveConfigurationIdempotent | Controller/Back/CommentController.php:395-418 | Saving the same valid form data twice leaves the configuration exactly as one save does. |
| BackCommentController.HydrateThenBind | Controller/Back/CommentController.php:99-168 | Binding the unchanged edit-form data of a comment gives back its eleven fields, and the update event also carries its id. |
| BackCommentController.BindReadsOnlyBoundKeys | Controller/Back/CommentController.php:153-168 | Binding reads exactly the eleven keys ref, ref_id, customer_id, username, email, locale, title, content, status, verified and rating. The update event adds `id`. |
| BackCommentController.GetExistingObject | Controller/Back/CommentController.php:207-216 | The edited comment is the one stored under the request's `comment_id`. When no bag holds that id, no comment is loaded. |
| BackCommentController.GetExistingObjectAsWritten | Controller/Back/CommentController.php:207-216 | As written: the loader fails with an uncaught error iff `Request::get` finds no non-null `comment_id`; otherwise it loads the comment stored under that id, if any. |
| BackCommentController.MissingIdBreaksLoader | Controller/Back/CommentController.php:210-213 | Written as it is, every request whose bags hold no `comment_id` ends in an uncaught error, and the error occurs iff `Request::get` yields null. |
| BackCommentController.LoaderAgreesWhereWrittenReturns | Controller/Back/CommentController.php:207-216 | The corrected loader returns what the written one returns wherever the written one returns, and loads nothing otherwise. |
| MetaDataStore.SetVal | Controller/Back/CommentController.php:349 | After a write, the key reads as the new value and every other key's rows are unchanged. |
| MetaDataStore.Delete | Controller/Back/CommentController.php:353-357 | A filtered delete removes every row of the key, reports how many it removed, and leaves other keys' rows unchanged. |
| MetaDataStore.GetVal | Controller/Back/CommentController.php:364 | A read gives the first stored value of the key, or the default when there is none. |
| CommentCreationForm.Validate | Form/CommentCreationForm.php:40-162 | The violations are exactly the fields that fail a declared constraint, each once, in declaration order. |
| CommentCreationForm.AcceptsIff | Form/CommentCreationForm.php:55-131 | The form accepts iff title, content and ref are non-blank, ref_id ≥ 0 and 0 ≤ rating ≤ 5 when given, a given username has at least 2 characters, and a given non-empty email is well-formed. |
| CommentCreationForm.UnconstrainedFieldsAreFree | Form/CommentCreationForm.php:40-162 | customer_id, locale, status, verified and abuse never affect the verdict. |
| CommentCreationForm.RatingBounds | Form/CommentCreationForm.php:121-131 | A rating outside [0, 5] is refused whatever else is submitted, and an absent rating is never refused. |
| AddCommentListener.CheckCaptcha | EventListener/AddCommentListener.php:28-42 | The gate rejects iff the body carries `admin_add_comment`, the ReCaptcha module is active and the check reports not human. Its message is "Invalid captcha". |
| AddCommentListener.GateRegisteredFirst | EventListener/AddCommentListener.php:44-48 | Registered among ordered creation listeners that all have priority below 256, the gate goes in front of all of them and their order is kept. |
| AddCommentListener.CaptchaRejectionStopsLowerPriority | EventListener/AddCommentListener.php:44-48 | When the gate rejects, creation throws, and no listener of lower priority than the gate has run. |
| AddCommentListener.CaptchaRunsFirst | EventListener/AddCommentListener.php:36-48 | When all other creation listeners have lower priority, a rejecting gate is the only listener that runs, and the dispatch throws "Invalid captcha". |
| AddCommentListener.CaptchaPassIsTransparent | EventListener/AddCommentListener.php:28-42 | A gate that lets the submission through leaves the dispatch's outcome as it would be without the gate. |
| EventDispatch.Register | EventListener/AddCommentListener.php:44-48 | A listener registered at priority p goes after every listener of priority ≥ p and before every lower one, and the list stays ordered. |
| CreationPipeline.RejectedCaptchaIsReported | Controller/Front/CommentController.php:191-250 | A front submission that fails the captcha, with all other creation listeners below priority 256, gets `{success: false, messages: ["Invalid captcha"]}`. |
| CreationPipeline.InactiveCaptchaChangesNothing | EventListener/AddCommentListener.php:30-35 | With ReCaptcha inactive, or for a non-front submission, creation answers exactly as it would without the gate. |

## Findings

| source | as written | input that shows it | evidently intended | confidence | as-written member | corrected member |
|---|---|---|---|---|---|---|
| Controller/Front/CommentController.php:283-305 | The ownership test calls `$customer->getId()` even when nobody is logged in. The call on null raises an `Error`, and `catch (\Exception $ex)` does not catch an `Error`. | A visitor who is not logged in requests deletion of an existing comment. | The uniform `{success: false, message: "Comment could not be removed…"}` answer. | medium; not executed | FrontCommentController.AnonymousDeleteEscapes | FrontCommentController.DeleteAction |
| Controller/Back/CommentController.php:210-213 | The fallback calls `$this->getRequest()->attributes('comment_id')`. `attributes` is a property of the request, not a method, so the call raises an `Error`. | Any back-office request whose bags hold no `comment_id`. | Read the attribute bag. `Request::get` has already consulted it, so the fallback finds nothing and no comment is loaded. | medium; not executed | BackCommentController.MissingIdBreaksLoader | BackCommentController.GetExistingObject |

## Left out

- Rendering, templates, redirects' URLs, JSON encoding and translation. Messages are tokens; exception texts pass through as `Raw`.
- `checkXmlHttpRequest`, `checkAuth` and `accessDenied` internals. The model starts after those checks pass, and access-denied is an outcome tag.
- The listeners that resolve definitions, change statuses, count abuse reports, delete and persist comments. Their results are parameters. Status idempotence and the abuse counter belong to them and are not stated.
- The front form `AddCommentForm` and `CommentCreateEvent::bindForm` are not part of this model. The fields they bind are an input (`FormOutcome`).
- Exceptions other than the invalid-definition one thrown during definition resolution, and exceptions from `findPk`, are not modelled.
- The ReCaptcha module lookup and its check are inputs (`reCaptchaActive`, `human`). The email format test is the parameter `isEmail`.
- `requestCustomerCommentAction` (the cron-triggered purchase check) only dispatches an event, so it is not modelled. The CRUD scaffolding is left out too: form getters, templates, labels, ids, `getDeleteEvent`, `eventContainsObject`, `getObjectFromEvent`.
- The numeric values of the comment status constants and the literal of the activation meta key are not in the modelled files. Status is an enumeration, and the meta key is a named constant.
- The activation route's `refId` is taken as the integer the metadata table's element id holds. Primary-key lookups use the submitted value as the key.
- The resolution listeners may replace the customer and the configuration that `getDefinition` puts on the definition event (Controller/Front/CommentController.php:259-260). The model does not assume they keep them: the validation groups, the creation event's customer id and the moderation choice follow the customer and configuration of the resolved definition, which need not be the logged-in customer and the module configuration.
- Concurrency and the ordering of concurrent requests. Each action is one pure step.
- The event dispatcher's `stopPropagation` is not modelled; no modelled listener uses it.
- PhpValues.LooseEquals: numeric strings with a decimal point or an exponent ("1.0", "1e0") compare as text. PHP compares them as floating-point numbers, so "1.0" would set the flag in PHP but not in the model. Integers beyond 64 bits are not turned into floats either.
- The configuration form's data is a record with one entry per declared field, since a validated Symfony form yields every field. Configuration variables other than the module's seven are kept by name, and none of those names is one of the seven.
- BackCommentController.SaveConfiguration: an exception raised by a configuration write part-way through the save is not modelled. Only a form-validation failure is, so partial writes are left out.
- CommentCreationForm.Validate: the record holds each field after Symfony's conversion, so a non-integer text submitted for an `IntegerType` field (`customer_id`, `ref_id`, `rating`, `status`, `verified`, `abuse`), which Symfony reports as a transformation error, cannot be expressed.
- BackCommentController.ChangeStatusAction: when the status listener leaves no comment in the event, reading its status raises an `Error`. This is modelled as `StatusFatal` and not claimed as a finding, because that listener is not part of this model.
