/**
 * `createCheckoutSession` (src/controllers/payment.controller.js): a chain of guards over
 * the catalogue and the enrollment ledger, then one request to the payment provider. The
 * provider is a parameter that answers a request with the session's URL, or with nothing
 * when the call throws. The handler reads the ledger and never writes it, so it is a
 * function of the records.
 */
module PaymentController {
  import opened Wrappers
  import opened JsString
  import opened Http
  import opened CourseModel
  import opened EnrollmentController
  import opened AuthMiddleware
  import Jwt

  /** One entry of `line_items`, with its `price_data`. */
  datatype LineItem = LineItem(currency: string, productName: string, unitAmount: int, quantity: int)

  /** The argument of `stripe.checkout.sessions.create`. */
  datatype CheckoutRequest = CheckoutRequest(
    mode: string,
    paymentMethodTypes: seq<string>,
    customerEmail: Option<string>,
    lineItems: seq<LineItem>,
    successUrl: string,
    cancelUrl: string)

  /** What the handler answers, and the provider request it made, if any. */
  datatype Checkout = Checkout(reply: Reply<string>, requested: Option<CheckoutRequest>)

  /** A template literal renders an undefined value as the text "undefined". */
  function Interpolate(s: Option<string>): string {
    if s.Some? then s.value else "undefined"
  }

  /** Stripe amounts are in the currency's smallest unit: paise for rupees. */
  function UnitAmount(price: int): int {
    price * 100
  }

  function RequestFor(course: Course, courseId: string, email: Option<string>, frontendUrl: Option<string>): CheckoutRequest {
    CheckoutRequest(
      "payment",
      ["card"],
      email,
      [LineItem("inr", course.title, UnitAmount(course.price), 1)],
      Interpolate(frontendUrl) + "/payment-success?courseId=" + courseId,
      Interpolate(frontendUrl) + "/courses")
  }

  function CreateCheckoutSession(catalogue: seq<Course>, records: seq<Enrollment>, user: ReqUser,
                                 courseId: Option<string>, frontendUrl: Option<string>,
                                 provider: CheckoutRequest -> Option<string>): (r: Checkout)
    requires user.id.Some?
    ensures !Truthy(courseId) ==> r == Checkout(Fail(400, "Course ID is required"), None)
    ensures Truthy(courseId) && FindCourse(catalogue, courseId).None? ==> r == Checkout(Fail(404, "Course not found"), None)
    ensures Truthy(courseId) && FindCourse(catalogue, courseId).Some? && FindCourse(catalogue, courseId).value.price == 0
      ==> r == Checkout(Fail(400, "Course is free"), None)
    ensures Truthy(courseId) && FindCourse(catalogue, courseId).Some? && FindCourse(catalogue, courseId).value.price != 0
      && PairTaken(records, user.id.value, courseId.value)
      ==> r == Checkout(Fail(400, "Already enrolled"), None)
    ensures r.requested.Some? <==>
      && Truthy(courseId) && FindCourse(catalogue, courseId).Some? && FindCourse(catalogue, courseId).value.price != 0
      && !PairTaken(records, user.id.value, courseId.value)
    ensures r.requested.Some? ==>
      r.requested.value == RequestFor(FindCourse(catalogue, courseId).value, courseId.value, user.email, frontendUrl)
      && (r.reply.Ok? <==> provider(r.requested.value).Some?)
      && (r.reply.Ok? ==> r.reply == Ok(200, provider(r.requested.value).value))
      && (!r.reply.Ok? ==> r.reply.Thrown?)
  {
    if !Truthy(courseId) then Checkout(Fail(400, "Course ID is required"), None)
    else match FindCourse(catalogue, courseId)
      case None => Checkout(Fail(404, "Course not found"), None)
      case Some(course) =>
        if course.price == 0 then Checkout(Fail(400, "Course is free"), None)
        else if PairTaken(records, user.id.value, courseId.value) then Checkout(Fail(400, "Already enrolled"), None)
        else
          var request := RequestFor(course, courseId.value, user.email, frontendUrl);
          match provider(request)
          case None => Checkout(Thrown("Payment provider error"), Some(request))
          case Some(url) => Checkout(Ok(200, url), Some(request))
  }

  // ---------------------------------------------------------------------------
  // properties of the checkout

  /** The request sells one unit of the course, in rupees, at its price in paise, by card, for a single payment. */
  lemma CheckoutLineItem(catalogue: seq<Course>, records: seq<Enrollment>, user: ReqUser, courseId: Option<string>,
                         frontendUrl: Option<string>, provider: CheckoutRequest -> Option<string>)
    requires user.id.Some?
    requires CreateCheckoutSession(catalogue, records, user, courseId, frontendUrl, provider).requested.Some?
    ensures var q := CreateCheckoutSession(catalogue, records, user, courseId, frontendUrl, provider).requested.value;
      var course := FindCourse(catalogue, courseId).value;
      && |q.lineItems| == 1
      && q.lineItems[0].quantity == 1 && q.lineItems[0].currency == "inr"
      && q.lineItems[0].unitAmount == course.price * 100 && q.lineItems[0].productName == course.title
      && q.mode == "payment" && q.paymentMethodTypes == ["card"]
      && q.customerEmail == user.email
  {
  }

  /** The success URL carries the course id after the fixed path; with no `FRONTEND_URL` it starts with "undefined". */
  lemma CheckoutUrls(course: Course, courseId: string, email: Option<string>, frontendUrl: Option<string>)
    ensures var q := RequestFor(course, courseId, email, frontendUrl);
      && q.successUrl[|Interpolate(frontendUrl)|..] == "/payment-success?courseId=" + courseId
      && q.successUrl[..|Interpolate(frontendUrl)|] == Interpolate(frontendUrl)
      && q.cancelUrl == Interpolate(frontendUrl) + "/courses"
    ensures frontendUrl.None? ==> RequestFor(course, courseId, email, frontendUrl).successUrl[..9] == "undefined"
  {
    var f := Interpolate(frontendUrl);
    var q := RequestFor(course, courseId, email, frontendUrl);
    assert q.successUrl == f + ("/payment-success?courseId=" + courseId);
  }

  /** Whenever a session is requested, the paid-enroll route would accept the same course and record a new enrollment. */
  lemma CheckoutThenPaidEnrollSucceeds(catalogue: seq<Course>, records: seq<Enrollment>, user: ReqUser, courseId: Option<string>,
                                       frontendUrl: Option<string>, provider: CheckoutRequest -> Option<string>)
    requires user.id.Some?
    requires CreateCheckoutSession(catalogue, records, user, courseId, frontendUrl, provider).requested.Some?
    ensures PaidEnrollGuard(catalogue, courseId).Proceed?
    ensures !PairTaken(records, user.id.value, courseId.value)
  {
  }

  /** A priced course the caller has not enrolled in is refused by the free route and gets a checkout session request. */
  lemma PricedCourseNeedsCheckout(catalogue: seq<Course>, records: seq<Enrollment>, user: ReqUser, courseId: string,
                                  frontendUrl: Option<string>, provider: CheckoutRequest -> Option<string>)
    requires user.id.Some? && courseId != ""
    requires FindCourse(catalogue, Some(courseId)).Some? && FindCourse(catalogue, Some(courseId)).value.price > 0
    requires !PairTaken(records, user.id.value, courseId)
    ensures FreeEnrollGuard(catalogue, Some(courseId)) == Guard.Reject(403, "Payment required for this course")
    ensures CreateCheckoutSession(catalogue, records, user, Some(courseId), frontendUrl, provider).requested
      == Some(RequestFor(FindCourse(catalogue, Some(courseId)).value, courseId, user.email, frontendUrl))
  {
  }

  /** A caller who signed in with a token from `generateToken` has no email claim, so the request names no customer email. */
  lemma IssuedSessionSendsNoEmail(env: Jwt.Env, signer: Jwt.Signer, p: Jwt.Payload, catalogue: seq<Course>,
                                  records: seq<Enrollment>, courseId: Option<string>, frontendUrl: Option<string>,
                                  provider: CheckoutRequest -> Option<string>)
    requires Jwt.Sound(signer)
    requires Jwt.GenerateToken(env, signer, p).Token?
    requires Authenticate(Some(Jwt.GenerateToken(env, signer, p).token), None, env.jwtSecret, signer).Next?
    ensures var user := Authenticate(Some(Jwt.GenerateToken(env, signer, p).token), None, env.jwtSecret, signer).user;
      user.id.Some? &&
      var r := CreateCheckoutSession(catalogue, records, user, courseId, frontendUrl, provider);
      r.requested.Some? ==> r.requested.value.customerEmail.None?
  {
    IssuedTokenHasNoEmail(env, signer, p, None);
  }
}
