/** Two-factor reconciliation in `ProfileModel::save`: the scan of the
    plugin replies for the requested method and the new one-time-password
    configuration that the save stores for the user. */
module Otp {
  import opened Wrappers
  import opened Php

  /** One reply to the `onUserTwofactorApplyConfiguration` event: something
      that is not an object, or an object with the properties `method` and
      `config` (a missing property reads as null). */
  datatype Reply = NotAnObject | Reply(methodName: Value, config: Value)

  /** A user's one-time-password configuration: the two-factor method, its
      method-specific configuration and the one-time emergency passwords. */
  datatype OtpConfig = OtpConfig(methodName: Value, config: Value, otep: seq<string>)

  /** The method name the `none` branch tests for with `!==`. */
  const NoneMethod := Str("none")

  /** `$data['twofactor']['method']`: the requested method, null when the
      submitted value is not an array or has no `method` entry. */
  function RequestedMethod(twofactor: Value): Value {
    if twofactor.Arr? && "method" in twofactor.entries then twofactor.entries["method"] else Null
  }

  /** A reply the scan accepts: an object whose `method` is non-empty and
      identical to the requested one. */
  predicate Accepts(reply: Reply, requested: Value) {
    reply.Reply? && !IsEmpty(reply.methodName) && reply.methodName == requested
  }

  /** The position of the first accepted reply, if any. */
  function FirstAccepted(replies: seq<Reply>, requested: Value): (r: Option<nat>)
    ensures r.Some? ==> r.value < |replies| && Accepts(replies[r.value], requested)
    ensures r.Some? ==> forall j | 0 <= j < r.value :: !Accepts(replies[j], requested)
    ensures r.None? <==> forall j | 0 <= j < |replies| :: !Accepts(replies[j], requested)
  {
    if replies == [] then None
    else if Accepts(replies[0], requested) then Some(0)
    else
      match FirstAccepted(replies[1..], requested)
      case None => None
      case Some(i) => Some(i + 1)
  }

  /** The configuration after the scan: the first accepted reply supplies
      `method` and `config`; with no accepted reply nothing changes. */
  function AdoptFirstAccepted(otp: OtpConfig, replies: seq<Reply>, requested: Value): OtpConfig {
    match FirstAccepted(replies, requested)
    case None => otp
    case Some(i) => otp.(methodName := replies[i].methodName, config := replies[i].config)
  }

  /** The `foreach` over the replies, with its `continue` and `break`. */
  method ScanReplies(otp: OtpConfig, replies: seq<Reply>, requested: Value) returns (r: OtpConfig)
    ensures r == AdoptFirstAccepted(otp, replies, requested)
  {
    r := otp;
    var i := 0;
    while i < |replies|
      invariant 0 <= i <= |replies|
      invariant forall j | 0 <= j < i :: !Accepts(replies[j], requested)
      invariant r == otp
    {
      var reply := replies[i];
      if !reply.Reply? || IsEmpty(reply.methodName) || reply.methodName != requested {
        i := i + 1;
        continue;
      }
      r := r.(methodName := reply.methodName, config := reply.config);
      break;
    }
  }

  /** The configuration the save hands to `setOtpConfig` (with the
      passwords `generateOteps` adds), given the prior configuration, the
      requested method, the replies and the emergency passwords
      `generateOteps` would create. */
  function Reconcile(prior: OtpConfig, requested: Value, replies: seq<Reply>, generated: seq<string>): (r: OtpConfig)
    // Method `none`: no method, an empty configuration, and the passwords
    // as passed to `setOtpConfig`, which are the prior ones.
    ensures requested == NoneMethod ==> r == OtpConfig(NoneMethod, Arr(map[]), prior.otep)
    // Any other method: the first accepted reply decides, or the prior
    // method and configuration stay.
    ensures requested != NoneMethod ==>
      match FirstAccepted(replies, requested)
      case None => r.methodName == prior.methodName && r.config == prior.config
      case Some(i) => r.methodName == replies[i].methodName && r.config == replies[i].config
    // Emergency passwords are generated only for a method other than
    // `none`, and only when there were none.
    ensures r.otep != prior.otep ==> requested != NoneMethod && prior.otep == [] && r.otep == generated
    ensures requested != NoneMethod && prior.otep == [] ==> r.otep == generated
  {
    if requested != NoneMethod then
      var adopted := AdoptFirstAccepted(prior, replies, requested);
      if adopted.otep == [] then adopted.(otep := generated) else adopted
    else
      prior.(methodName := NoneMethod, config := Arr(map[]))
  }

  /** An empty requested method (say, a missing one) is never matched, so
      the prior method and configuration stay. */
  lemma EmptyRequestMatchesNothing(prior: OtpConfig, requested: Value, replies: seq<Reply>, generated: seq<string>)
    requires IsEmpty(requested)
    ensures FirstAccepted(replies, requested).None?
    ensures Reconcile(prior, requested, replies, generated).methodName == prior.methodName
    ensures Reconcile(prior, requested, replies, generated).config == prior.config
  {
  }

  /** First match wins: replies after an accepted one make no difference. */
  lemma {:induction false} LaterRepliesIgnored(replies: seq<Reply>, extra: seq<Reply>, requested: Value)
    requires FirstAccepted(replies, requested).Some?
    ensures FirstAccepted(replies + extra, requested) == FirstAccepted(replies, requested)
  {
    if !Accepts(replies[0], requested) {
      assert (replies + extra)[1..] == replies[1..] + extra;
      LaterRepliesIgnored(replies[1..], extra, requested);
    }
  }

  /** Consequently the stored configuration ignores those replies too. */
  lemma ReconcileIgnoresLaterReplies(prior: OtpConfig, requested: Value, replies: seq<Reply>, extra: seq<Reply>, generated: seq<string>)
    requires FirstAccepted(replies, requested).Some?
    ensures Reconcile(prior, requested, replies + extra, generated) == Reconcile(prior, requested, replies, generated)
  {
    LaterRepliesIgnored(replies, extra, requested);
  }

  /** Choosing a method other than `none` with no emergency passwords left
      ends with passwords, as long as the generator produces some. */
  lemma PasswordsAfterEnabling(prior: OtpConfig, requested: Value, replies: seq<Reply>, generated: seq<string>)
    requires requested != NoneMethod && prior.otep == [] && generated != []
    ensures Reconcile(prior, requested, replies, generated).otep != []
  {
  }
}
