/**
 * The core service container: like the dependency-injection container, but
 * it rejects keys that are not strings and services that are null or
 * undefined with a `TypeError`.
 */
module CoreContainer {
  import opened JsValues

  const KeyMustBeString: Failure := TypeError("Service key must be a string")
  const ServiceMissing: Failure := TypeError("Service instance cannot be null or undefined")

  function NotFound(key: string): Failure
  {
    Error("Service " + key + " not found in container")
  }

  /** The services after `register(key, service)`, or the error it throws. */
  function Register(services: map<string, Value>, key: Value, service: Value): (r: Result<map<string, Value>>)
    ensures r.Ok? <==> key.Str? && service != Null && service != Undefined
    ensures !key.Str? ==> r == Err(KeyMustBeString)
    ensures key.Str? && (service == Null || service == Undefined) ==> r == Err(ServiceMissing)
    ensures r.Ok? ==> r.value.Keys == services.Keys + {key.s}
                      && forall k :: k in services && k != key.s ==> r.value[k] == services[k]
  {
    if !key.Str? then Err(KeyMustBeString)
    else if service == Null || service == Undefined then Err(ServiceMissing)
    else Ok(services[key.s := service])
  }

  /** The result of `get(key)`: the service, or the error it throws. */
  function Lookup(services: map<string, Value>, key: Value): (r: Result<Value>)
    ensures r.Ok? <==> key.Str? && key.s in services
    ensures !key.Str? ==> r == Err(KeyMustBeString)
    ensures key.Str? && key.s !in services ==> r == Err(NotFound(key.s))
    ensures r.Ok? ==> r.value == services[key.s]
  {
    if !key.Str? then Err(KeyMustBeString)
    else if key.s !in services then Err(NotFound(key.s))
    else Ok(services[key.s])
  }

  /** Whatever is registered is what `get` returns, and it is never null or undefined. */
  lemma RegisterThenLookup(services: map<string, Value>, key: Value, service: Value, other: Value)
    requires Register(services, key, service).Ok?
    ensures Lookup(Register(services, key, service).value, key) == Ok(service)
    ensures other != key ==> Lookup(Register(services, key, service).value, other) == Lookup(services, other)
  {
  }

  /** A container built only through `register` never hands out null or undefined. */
  lemma LookupNeverNull(services: map<string, Value>, key: Value)
    requires forall k :: k in services ==> services[k] != Null && services[k] != Undefined
    ensures Lookup(services, key).Ok? ==> Lookup(services, key).value != Null && Lookup(services, key).value != Undefined
  {
  }

  class ServiceContainer {
    var services: map<string, Value>

    ghost predicate Valid()
      reads this
    {
      forall k :: k in services ==> services[k] != Null && services[k] != Undefined
    }

    constructor ()
      ensures Valid() && services == map[]
    {
      services := map[];
    }

    method RegisterService(key: Value, service: Value) returns (r: Result<()>)
      requires Valid()
      modifies this
      ensures Valid()
      ensures r.Ok? <==> Register(old(services), key, service).Ok?
      ensures r.Ok? ==> services == Register(old(services), key, service).value
      ensures r.Err? ==> services == old(services) && r.error == Register(old(services), key, service).error
    {
      if !key.Str? {
        return Err(KeyMustBeString);
      }
      if service == Null || service == Undefined {
        return Err(ServiceMissing);
      }
      services := services[key.s := service];
      return Ok(());
    }

    method Get(key: Value) returns (r: Result<Value>)
      ensures r == Lookup(services, key)
    {
      if !key.Str? {
        return Err(KeyMustBeString);
      }
      if key.s !in services {
        return Err(NotFound(key.s));
      }
      return Ok(services[key.s]);
    }
  }
}
