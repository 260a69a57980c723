/** The backend's cross-origin rule: which browser origins may call the API. */
module Cors {
  import opened Common

  /** The list used when `CORS_ORIGINS` is unset or empty. */
  const DefaultOrigins: seq<string> := ["http://localhost:3000"]

  /** The allowed origins: the comma-separated entries of `CORS_ORIGINS`, untrimmed,
      or the local front end when the variable is unset or empty. */
  function AllowedOrigins(env: Option<string>): (list: seq<string>)
    ensures |list| >= 1
    ensures !Given(env) ==> list == DefaultOrigins
    ensures Given(env) ==> Join(list, ",") == env.value
    ensures Given(env) ==> forall o :: o in list ==> ',' !in o
  {
    if Given(env) then
      JoinSplit(env.value, ',');
      SplitPiecesFree(env.value, ',');
      Split(env.value, ',')
    else DefaultOrigins
  }

  /** What the `origin` callback tells the CORS middleware. */
  datatype Decision = Allowed | Rejected(error: string)

  /** A request without an Origin header is allowed; otherwise the origin must be
      one of the entries, or some entry must be the wildcard `*`. */
  function Decide(allowed: seq<string>, origin: Option<string>): (d: Decision)
    ensures d == Allowed <==> !Given(origin) || origin.value in allowed || "*" in allowed
    ensures d.Rejected? ==> d.error == "Not allowed by CORS"
  {
    if !Given(origin) then Allowed
    else if origin.value in allowed || "*" in allowed then Allowed
    else Rejected("Not allowed by CORS")
  }

  /** Configured with one origin (no comma, not the wildcard), the server admits
      exactly that origin, spelled exactly as configured. */
  lemma SingleOrigin(configured: string, origin: string)
    requires configured != "" && configured != "*" && ',' !in configured
    ensures Decide(AllowedOrigins(Some(configured)), Some(origin)) == Allowed <==> origin == "" || origin == configured
  {
    SplitWhole(configured, ',');
  }

  /** Without configuration only the local front end is admitted. */
  lemma DefaultAdmitsLocalOnly(origin: string)
    ensures Decide(AllowedOrigins(None), Some(origin)) == Allowed <==> origin == "" || origin == "http://localhost:3000"
  {
  }
}
