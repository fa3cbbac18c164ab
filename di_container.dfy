/**
 * The dependency-injection container that managers extending the base
 * manager resolve their collaborators from: a map from keys to services.
 */
module DiContainer {
  import opened JsValues

  function NotFound(key: string): (f: Failure)
    ensures f.Error? && |f.message| == |key| + 31
    ensures f.message[..8] == "Service " && f.message[8..8 + |key|] == key
  {
    Error("Service " + key + " not found in container")
  }

  class ServiceContainer {
    var services: map<string, Value>

    constructor ()
      ensures services == map[]
    {
      services := map[];
    }

    /** `register`: stores the service, replacing any earlier one under the key. */
    method Register(key: string, service: Value)
      modifies this
      ensures services == old(services)[key := service]
    {
      services := services[key := service];
    }

    /** `get`: the service under the key, or the not-found error. */
    method Get(key: string) returns (r: Result<Value>)
      ensures key in services <==> r.Ok?
      ensures r.Ok? ==> r.value == services[key]
      ensures r.Err? ==> r.error == NotFound(key)
    {
      if key !in services {
        return Err(NotFound(key));
      }
      return Ok(services[key]);
    }
  }

  /** The not-found message names the missing key: distinct keys give distinct errors. */
  lemma NotFoundNamesTheKey(k1: string, k2: string)
    requires NotFound(k1) == NotFound(k2)
    ensures k1 == k2
  {
    var m1 := NotFound(k1).message;
    var suffix := " not found in container";
    assert m1 == "Service " + k1 + suffix;
    assert |k1| == |k2|;
    assert k1 == m1[8..8 + |k1|];
  }
}
