/** `health`, the `GET /health` route: the probe of the rendering backend
    (Gotenberg) is an input, and the route reports its outcome. */
module Health {
  import opened Wrappers
  import opened Responses

  /** How the probe `GET {GOTENBERG_URL}/health` ended: with a response and
      its status code, or by raising (connection refused, timeout, ...). */
  datatype ProbeOutcome = Responded(statusCode: int) | ProbeRaised

  /** The default of `GOTENBERG_URL`. */
  const DefaultGotenbergUrl := "http://localhost:3000"
  const ServiceStatus := "ok"
  const Version := "0.1.0"

  /** The address the probe requests, `f"{GOTENBERG_URL}/health"`: the
      configured backend address followed by the health path. The probe's
      own outcome is what `HealthCheck` receives. */
  function ProbeUrl(gotenbergUrl: string): (u: string)
    ensures |u| == |gotenbergUrl| + 7 && u[..|gotenbergUrl|] == gotenbergUrl
    ensures u[|gotenbergUrl|..] == "/health"
  {
    gotenbergUrl + "/health"
  }

  /** The backend status reported: "ok" only for status 200, "error" for any
      other status, "unreachable" when the probe raised. */
  function GotenbergStatus(probe: ProbeOutcome): (s: string)
    ensures s == "ok" || s == "error" || s == "unreachable"
    ensures s == "ok" <==> probe == Responded(200)
    ensures s == "unreachable" <==> probe.ProbeRaised?
  {
    match probe
    case Responded(code) => if code == 200 then "ok" else "error"
    case ProbeRaised => "unreachable"
  }

  /** The route's response: always status 200 with `status: "ok"` and the
      version; the placeholder "unknown" is always overwritten. */
  function HealthCheck(probe: ProbeOutcome): (resp: HttpResponse)
    ensures resp.statusCode == StatusOk
    ensures Member(resp.body, "status") == Some(JString(ServiceStatus))
    ensures Member(resp.body, "gotenberg") == Some(JString(GotenbergStatus(probe)))
  {
    var gotenberg := GotenbergStatus(probe);
    var body := HealthResponseJson(HealthResponse(ServiceStatus, gotenberg, Version));
    assert body.members[1..][0].0 == "gotenberg";
    HttpResponse(StatusOk, body)
  }

  /** The reported backend status is "error" exactly for a response other
      than 200, a 2xx such as 204 included, and is never "unknown". */
  lemma BackendStatusCases(probe: ProbeOutcome)
    ensures GotenbergStatus(probe) == "error" <==> probe.Responded? && probe.statusCode != 200
    ensures GotenbergStatus(probe) != "unknown"
  {
  }

  /** The health body always names the version. */
  lemma HealthReportsVersion(probe: ProbeOutcome)
    ensures Member(HealthCheck(probe).body, "version") == Some(JString(Version))
  {
    var body := HealthCheck(probe).body;
    assert body.members[1..][1..][0].0 == "version";
  }
}
