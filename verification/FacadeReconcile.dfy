/** The second half of the facade's reconcile as it is written, on a copy that is changed and
    patched step by step: it does what the state machine does when every write succeeds. */
module FacadeReconcile {

  import opened Options
  import opened Endpoint
  import opened ControlPlane
  import opened Facade
  import opened FacadeSafety
  import opened FacadeFixedPoint

  lemma FinishAfterStep(c: Context, w: World, p: Pass)
    requires !p.Idle? && !p.Done?
    ensures var (w', p') := Step(c, w, p); Finish(c, w, p) == Finish(c, w', p')
  {
  }

  lemma ConditionsAreLast(c: Context, w: World, p: Pass)
    requires p.AtConditions?
    ensures Finish(c, w, p) == ConditionsStep(c, w, p)
  {
  }

  lemma FinishFromInitialized(c: Context, w: World, p: Pass)
    requires p.AtInitialized?
    ensures var (w1, p1) := InitializedStep(c, w, p); Finish(c, w, p) == ConditionsStep(c, w1, p1)
  {
    FinishAfterStep(c, w, p);
    ConditionsAreLast(c, InitializedStep(c, w, p).0, InitializedStep(c, w, p).1);
  }

  /** The three writes of the second half, one after the other. */
  lemma FinishFromEndpoint(c: Context, w: World, p: Pass)
    requires p.AtEndpoint?
    ensures var (w1, p1) := EndpointStep(c, w, p);
            var (w2, p2) := InitializedStep(c, w1, p1);
            Finish(c, w, p) == ConditionsStep(c, w2, p2)
  {
    FinishAfterStep(c, w, p);
    FinishFromInitialized(c, EndpointStep(c, w, p).0, EndpointStep(c, w, p).1);
  }

  method ReconcileEndpoint(c: Context, copy: Copy, got: Got, kube: Kube, ghost w: World)
      returns (status: InstanceStatus, endpointValid: bool)
    requires w.cp == copy.server.Value()
    modifies copy, copy.server
    ensures var r := EndpointStep(c, w, AtEndpoint(old(copy.Value()), got, kube));
            r == (w.(cp := copy.server.Value()), AtInitialized(copy.Value(), got, kube, status, endpointValid))
  {
    status, endpointValid := got.status, true;
    if status.endpoint != "" {
      var parsed := c.parse(status.endpoint);
      if parsed.Err? {
        var n := c.words.notice(EndpointInvalid(parsed.error));
        status := status.(ready := false, reason := n.reason, message := n.message);
        endpointValid := false;
      } else if copy.spec.endpoint != parsed.endpoint {
        copy.SetEndpoint(parsed.endpoint);
      }
    }
  }

  method ReconcileInitialized(c: Context, copy: Copy, got: Got, status: InstanceStatus, endpointValid: bool, kube: Kube, ghost w: World)
    requires w.cp == copy.server.Value()
    modifies copy, copy.server
    ensures var r := InitializedStep(c, w, AtInitialized(old(copy.Value()), got, kube, status, endpointValid));
            r.0 == w.(cp := copy.server.Value()) && r.1.local == copy.Value()
  {
    var initialized := got.initialized;
    if !initialized && got.onEndpoint && endpointValid && status.endpoint != "" {
      initialized := true;
    }
    if initialized {
      copy.SetInitialized();
    }
  }

  method ReconcileStatus(c: Context, copy: Copy, got: Got, kube: Kube, ghost w: World) returns (requeue: nat)
    requires w.cp == copy.server.Value()
    modifies copy, copy.server
    ensures Finish(c, w, AtEndpoint(old(copy.Value()), got, kube)) == (w.(cp := copy.server.Value()), Done(requeue))
  {
    FinishFromEndpoint(c, w, AtEndpoint(copy.Value(), got, kube));
    var status, endpointValid := ReconcileEndpoint(c, copy, got, kube, w);
    ghost var w1 := w.(cp := copy.server.Value());
    ReconcileInitialized(c, copy, got, status, endpointValid, kube, w1);

    var controlPlaneReady := status.ready && status.endpoint != "";
    var overallReady := controlPlaneReady;
    if controlPlaneReady && kube == KubeWaiting {
      overallReady := false;
      if KubeconfigSecretReconciled in copy.status.conditions {
        var condition := copy.status.conditions[KubeconfigSecretReconciled];
        status := status.(reason := condition.reason, message := condition.message);
      } else {
        var n := c.words.notice(SecretPending);
        status := status.(reason := n.reason, message := n.message);
      }
    }
    copy.ReconcileConditionsAndFailure(c.words, status, overallReady);
    if !controlPlaneReady {
      return NOT_READY_REQUEUE;
    }
    if kube == KubeWaiting {
      return NOT_READY_REQUEUE;
    }
    if got.watchFailed {
      return WATCH_REQUEUE;
    }
    return 0;
  }
}
