/** The tween cell behind every animated property of a surface. It is lazily
    activated: until its value has been read once, a new target is taken
    over at once; afterwards every new target starts a run of the host's
    animation driver from the live value to the target.

    The driver is the host's: a run is keyed by the tween's identity and a new
    run under the same key supersedes the old one, so at most one run is in
    flight; it delivers values between its two ends, each through `Tick`. */
module Animation {
  import opened Graphics

  /** A run of the host's driver: under `key`, from `from` to `to`, lasting `length` ms. */
  datatype Run = Run(key: string, from: real, to: real, length: nat)

  /** `v` lies in the closed interval spanned by `a` and `b`, whichever is larger. */
  predicate Between(v: real, a: real, b: real)
  {
    (a <= v <= b) || (b <= v <= a)
  }

  class Animated {
    const id: string
    const min: real
    const max: real
    const length: nat

    var current: real
    var target: real
    var start: real
    var hasBeenUsed: bool

    /** How often the invalidate callback has been called. */
    var invalidations: nat
    /** The driver run in flight under `id`, if any. */
    var driver: Option<Run>
    /** How many runs have been started under `id`. */
    var runsStarted: nat

    /** A run in flight exists only after activation, goes from `start` to
        `target`, and has kept the current value between its two ends. */
    ghost predicate Valid()
      reads this
    {
      driver.Some? ==>
        && hasBeenUsed
        && driver.value == Run(id, start, target, length)
        && Between(current, start, target)
    }

    constructor (id: string, initialValue: real, min: real, max: real, length: nat)
      ensures Valid()
      ensures this.id == id && this.min == min && this.max == max && this.length == length
      ensures current == initialValue && target == 0.0 && start == 0.0 && !hasBeenUsed
      ensures invalidations == 0 && driver == None && runsStarted == 0
    {
      this.id := id;
      this.min := min;
      this.max := max;
      this.length := length;
      current := initialValue;
      target := 0.0;
      start := 0.0;
      hasBeenUsed := false;
      invalidations := 0;
      driver := None;
      runsStarted := 0;
    }

    /** The `Current` getter: activates the tween and returns the live value. */
    method GetCurrent() returns (v: real)
      requires Valid()
      modifies this`hasBeenUsed
      ensures Valid() && hasBeenUsed && v == current
    {
      hasBeenUsed := true;
      v := current;
    }

    /** The effect of assigning `value` to `Target`: snap if never read,
        otherwise freeze `start` at the live value and start a new run to
        `value`. There is no short-cut for a value equal to the old target. */
    twostate predicate Retargeted(value: real)
      reads this
    {
      && target == value
      && hasBeenUsed == old(hasBeenUsed)
      && if old(hasBeenUsed) then
           && start == old(current) && current == old(current)
           && driver == Some(Run(id, old(current), value, length))
           && runsStarted == old(runsStarted) + 1
           && invalidations == old(invalidations)
         else
           && start == value && current == value
           && driver == old(driver)
           && runsStarted == old(runsStarted)
           && invalidations == old(invalidations) + 1
    }

    /** The `Target` setter. */
    method SetTarget(value: real)
      requires Valid()
      modifies this`target, this`start, this`current, this`invalidations, this`driver, this`runsStarted
      ensures Valid() && Retargeted(value)
    {
      target := value;
      if hasBeenUsed {
        start := current;
        driver := Some(Run(id, start, target, length));
        runsStarted := runsStarted + 1;
      } else {
        start := value;
        current := value;
        invalidations := invalidations + 1;
      }
    }

    /** One callback of the run in flight: it stores the delivered value and
        invalidates. */
    method Tick(v: real)
      requires Valid() && driver.Some? && Between(v, driver.value.from, driver.value.to)
      modifies this`current, this`invalidations
      ensures Valid() && current == v && invalidations == old(invalidations) + 1
    {
      current := v;
      invalidations := invalidations + 1;
    }

    /** The last callback of the run in flight: it delivers the run's end
        value, invalidates, and the run is over. */
    method Finish()
      requires Valid() && driver.Some?
      modifies this`current, this`invalidations, this`driver
      ensures Valid() && driver == None
      ensures current == old(driver).value.to == target
      ensures invalidations == old(invalidations) + 1
    {
      current := driver.value.to;
      invalidations := invalidations + 1;
      driver := None;
    }

    /** `Reset` is not part of this model; it is taken to leave every value
        alone and to be free to clear the activation flag while no run is in
        flight. */
    method Reset()
      requires Valid()
      modifies this`hasBeenUsed
      ensures Valid()
      ensures driver.Some? ==> hasBeenUsed == old(hasBeenUsed)
    {
      var used: bool :| driver.Some? ==> used == hasBeenUsed;
      hasBeenUsed := used;
    }
  }

  // ---------------------------------------------------------------------------
  // What a client of one tween can observe

  /** Set before the first read, the target is taken over at once: the next
      read sees it and no run was started. */
  method SnapBeforeFirstRead(initialValue: real, value: real) returns (seen: real, runs: nat, invalidated: nat)
    ensures seen == value && runs == 0 && invalidated == 1
  {
    var a := new Animated("tween", initialValue, 0.0, 1.0, 180);
    a.SetTarget(value);
    seen := a.GetCurrent();
    runs := a.runsStarted;
    invalidated := a.invalidations;
  }

  /** After a read, a new target starts a run from the live value; a second
      target given mid-flight starts from the value delivered last, not from
      the first target, and the `Target` getter shows the latest assignment. */
  method RedirectMidFlight(initialValue: real, first: real, mid: real, second: real)
    returns (before: real, targetMidFlight: real, secondStart: real, secondRun: Option<Run>)
    requires Between(mid, initialValue, first)
    ensures before == initialValue && targetMidFlight == first
    ensures secondStart == mid && secondRun == Some(Run("tween", mid, second, 180))
  {
    var a := new Animated("tween", initialValue, 0.0, 1.0, 180);
    before := a.GetCurrent();
    a.SetTarget(first);
    a.Tick(mid);
    targetMidFlight := a.target;
    a.SetTarget(second);
    secondStart := a.start;
    secondRun := a.driver;
  }

  /** A run that completes leaves the live value at the target and nothing
      in flight, whatever values it delivered on the way. */
  method RunToCompletion(initialValue: real, value: real, mid: real)
    returns (settled: real, inFlight: bool, runs: nat, invalidated: nat)
    requires Between(mid, initialValue, value)
    ensures settled == value && !inFlight && runs == 1 && invalidated == 2
  {
    var a := new Animated("tween", initialValue, 0.0, 1.0, 180);
    var _ := a.GetCurrent();
    a.SetTarget(value);
    a.Tick(mid);
    a.Finish();
    settled := a.current;
    inFlight := a.driver.Some?;
    runs := a.runsStarted;
    invalidated := a.invalidations;
  }

  /** Assigning the same target twice after activation starts two runs. */
  method SameTargetTwice(initialValue: real, value: real) returns (runs: nat)
    ensures runs == 2
  {
    var a := new Animated("tween", initialValue, 0.0, 1.0, 180);
    var _ := a.GetCurrent();
    a.SetTarget(value);
    a.SetTarget(value);
    runs := a.runsStarted;
  }
}
