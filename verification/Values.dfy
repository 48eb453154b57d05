/** Small value types shared by every component of the control plane model. */
module Values {

  datatype Option<+T> = None | Some(value: T)

  datatype Result<+T, +E> = Ok(value: T) | Err(error: E)

  /** Instants are nanoseconds since Go's zero `time.Time`, so `ZERO_TIME` is the value for which `IsZero` holds. */
  type Time = int

  const ZERO_TIME: Time := 0
  const SECOND: int := 1_000_000_000
  const MINUTE: int := 60 * SECOND
  const HOUR: int := 60 * MINUTE

  /** What survives writing an instant in RFC 3339 section 5.6 form without a fraction and parsing it back. */
  function WholeSeconds(t: Time): (r: Time)
    ensures r <= t < r + SECOND
    ensures r % SECOND == 0
  {
    t - t % SECOND
  }

  /** Whether one call to another system fails, which takes an outage. */
  method Fails(outage: bool) returns (fails: bool)
    ensures fails ==> outage
  {
    var chance: bool := *;
    return outage && chance;
  }

  /** A namespaced Kubernetes object name. */
  datatype Key = Key(tenant: string, id: string)

  /** Names the API server accepts: the only fact used is that they contain no slash. */
  predicate SlashFree(s: string) {
    '/' !in s
  }

  /** The in-memory store's flat map key. */
  function Joined(tenant: string, id: string): string {
    tenant + "/" + id
  }

  lemma JoinedInjective(t1: string, i1: string, t2: string, i2: string)
    requires SlashFree(t1) && SlashFree(t2)
    requires Joined(t1, i1) == Joined(t2, i2)
    ensures t1 == t2 && i1 == i2
  {
    var j := Joined(t1, i1);
    assert j[|t1|] == '/' && Joined(t2, i2)[|t2|] == '/';
    assert t1 == j[..|t1|] && t2 == j[..|t2|];
    assert i1 == j[|t1| + 1..] && i2 == j[|t2| + 1..];
  }
}
