/** One step of the `while True` loop in `main` around `watchForChanges`:
    which outcomes of a watch run restart it and which end the process. */
module Supervisor {
  import opened Common
  import Reconciler
  import Namespaces

  /** What a run of `watchForChanges` can raise: the cluster client's
      ApiException (whose status may be absent), urllib3's ProtocolError, or
      any other exception. */
  datatype Failure =
    | ApiException(status: Option<int>)
    | ProtocolError
    | OtherError(name: string)

  datatype Verdict = Restart | Fatal

  /** The policy with the status compared by value: an ApiException is
      re-raised only for status 500, a ProtocolError is logged, anything else
      is re-raised; a run that returns is simply started again. */
  function Step(raised: Option<Failure>): (v: Verdict)
    ensures v == Fatal <==> raised == Some(ApiException(Some(500))) || (raised.Some? && raised.value.OtherError?)
    ensures raised.Some? && raised.value.ProtocolError? ==> v == Restart
  {
    match raised
    case None => Restart
    case Some(ApiException(status)) => if status == Some(500) then Fatal else Restart
    case Some(ProtocolError) => Restart
    case Some(OtherError(_)) => Fatal
  }

  /** The policy as written: `e.status is not 500` compares object identity,
      which is false only when the status is the very object of the literal
      500 (`sameObject`). A status parsed from a response is in general a
      different object, since CPython shares int objects only for small
      values. */
  function StepAsWritten(raised: Option<Failure>, sameObject: bool): (v: Verdict)
    ensures v == Fatal <==> (raised == Some(ApiException(Some(500))) && sameObject) || (raised.Some? && raised.value.OtherError?)
  {
    match raised
    case None => Restart
    case Some(ApiException(status)) =>
      var isNot500 := !(status == Some(500) && sameObject);
      if isNot500 then Restart else Fatal
    case Some(ProtocolError) => Restart
    case Some(OtherError(_)) => Fatal
  }

  /** The two policies differ exactly on a status-500 ApiException whose
      status object is not the literal's: as written it restarts. */
  lemma IdentityRestartsOn500()
    ensures StepAsWritten(Some(ApiException(Some(500))), false) == Restart
    ensures Step(Some(ApiException(Some(500)))) == Fatal
  {
  }

  lemma AsWrittenAgreesElsewhere(raised: Option<Failure>, sameObject: bool)
    requires raised != Some(ApiException(Some(500))) || sameObject
    ensures StepAsWritten(raised, sameObject) == Step(raised)
  {
  }

  /** What an error escaping the reconciler is at the supervisor: request
      errors from the fetch or the notification, the NameError of the
      `errno` lookup after a failed `makedirs`, or the UnboundLocalError of
      `request` returning an unbound `res`. None of them is an ApiException
      or a ProtocolError. */
  function FaultFailure(f: Reconciler.Fault): (r: Failure)
    ensures r.OtherError?
  {
    match f
    case FetchFailed(_) => OtherError("RequestException")
    case MkdirFailed(_) => OtherError("NameError")
    case NotifyFailed(_) => OtherError("UnboundLocalError")
  }

  function StartFailure(e: Namespaces.StartError): (r: Failure)
    ensures r.OtherError?
  {
    match e
    case SelectorInvalid(_) => OtherError("ValueError")
    case QueueUnbound => OtherError("UnboundLocalError")
    case RetUnbound => OtherError("UnboundLocalError")
  }

  /** Every error raised while reconciling an event ends the process. */
  lemma ReconcileFaultIsFatal(f: Reconciler.Fault)
    ensures Step(Some(FaultFailure(f))) == Fatal
    ensures StepAsWritten(Some(FaultFailure(f)), false) == Fatal
  {
  }
}
