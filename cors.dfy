/**
  The cross-origin policy installed in front of every route: a request is let
  through when it carries no `Origin` header (or an empty one) or when its origin
  is, character for character, one of the five known front ends.
*/
module Cors {
  import opened Wrappers

  /** The front ends allowed to call the service: two local development servers,
      the Firebase hosting URL and two Vercel fallbacks. */
  const AllowedOrigins: seq<string> := [
    "http://localhost:5173",
    "http://localhost:5174",
    "https://rswa-web-app.web.app",
    "https://rswaa.vercel.app",
    "https://rrswa.vercel.app"
  ]

  const RejectMessage: string := "Not allowed by CORS"

  /** What the origin callback reports: `callback(null, true)` or
      `callback(new Error(...))`. */
  datatype Verdict = Allow | Reject(error: string)

  /** The origin callback. JavaScript's `!origin` holds both for a missing header
      and for an empty one; `includes` compares strings exactly. */
  function CheckOrigin(origin: Option<string>): (v: Verdict)
    ensures v == Allow <==> origin == None || origin == Some("") ||
                            (origin.Some? && origin.value in AllowedOrigins)
    ensures v != Allow ==> v == Reject(RejectMessage)
  {
    match origin
    case None => Allow
    case Some(o) => if o == "" || o in AllowedOrigins then Allow else Reject(RejectMessage)
  }

  /** A present, non-empty origin is accepted iff it is one of exactly five strings. */
  lemma ExactlyFiveOrigins(o: string)
    requires o != ""
    ensures CheckOrigin(Some(o)) == Allow <==>
            o in {"http://localhost:5173", "http://localhost:5174",
                  "https://rswa-web-app.web.app", "https://rswaa.vercel.app",
                  "https://rrswa.vercel.app"}
    ensures |set s | s in AllowedOrigins| == 5
  {
    var allowed := set s | s in AllowedOrigins;
    assert allowed == {"http://localhost:5173", "http://localhost:5174",
                       "https://rswa-web-app.web.app", "https://rswaa.vercel.app",
                       "https://rrswa.vercel.app"};
  }

  /** Matching is exact: a trailing slash, another port or another scheme is
      rejected. */
  lemma NearMissesRejected()
    ensures CheckOrigin(Some("http://localhost:5173/")) == Reject(RejectMessage)
    ensures CheckOrigin(Some("http://localhost:3000")) == Reject(RejectMessage)
    ensures CheckOrigin(Some("http://rswaa.vercel.app")) == Reject(RejectMessage)
  {
  }
}
