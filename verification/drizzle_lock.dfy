/**
 * The Drizzle lock builder: add() records one `table MODE|MODE` entry per
 * table, acquire() sends LOCK TABLES for all entries to the connection, and
 * release() sends UNLOCK TABLES.
 */
module DrizzleLock {
  import opened Wrappers
  import opened PhpStrings

  /**
   * `/^((LOW_PRIORITY )?WRITE)|(READ( LOCAL)?)$/i`: the anchors bind to their
   * own alternative, so a hint is accepted when it starts with WRITE or
   * LOW_PRIORITY WRITE, or ends (perhaps before a final newline) with READ or
   * READ LOCAL, ignoring case.
   */
  predicate IsAcceptedHint(h: string) {
    StartsWithIgnoringCase(h, "WRITE") || StartsWithIgnoringCase(h, "LOW_PRIORITY WRITE") ||
    EndsWithRead(h) ||
    (|h| > 0 && h[|h| - 1] == '\n' && EndsWithRead(h[..|h| - 1]))
  }

  predicate EndsWithRead(h: string) {
    EndsWithIgnoringCase(h, "READ") || EndsWithIgnoringCase(h, "READ LOCAL")
  }

  /** The accepted hints, upper-cased, in their given order. */
  function AcceptedModes(hints: seq<string>): seq<string>
    decreases |hints|
  {
    if hints == [] then []
    else
      AcceptedModes(hints[..|hints| - 1]) +
      (if IsAcceptedHint(hints[|hints| - 1]) then [ToUpper(hints[|hints| - 1])] else [])
  }

  /** The lock modes of an entry: the accepted hints, or WRITE when there are none (or no hints at all). */
  function Modes(hints: Option<seq<string>>): seq<string> {
    var accepted := if hints.Some? then AcceptedModes(hints.value) else [];
    if accepted == [] then ["WRITE"] else accepted
  }

  /** The statement acquire() sends. */
  function LockText(data: seq<string>): string {
    "LOCK TABLES " + Implode(",", data) + ";"
  }

  const UnlockText: string := "UNLOCK TABLES;"

  class LockBuilder {
    /** One entry per added table. */
    var data: seq<string>
    /** The commands handed to the connection's execute(), oldest first. */
    var executed: seq<Command>
    /** The Drizzle precompiler's prepare_identifier; its code is not part of this model. */
    const prepareIdentifier: string -> Result<string>
    /** The outcome of the connection's execute() for a command; its code is not part of this model. */
    const execute: Command -> Outcome

    constructor (prepareIdentifier: string -> Result<string>, execute: Command -> Outcome)
      ensures data == [] && executed == []
      ensures this.prepareIdentifier == prepareIdentifier && this.execute == execute
    {
      data := [];
      executed := [];
      this.prepareIdentifier := prepareIdentifier;
      this.execute := execute;
    }

    /** acquire() */
    method Acquire() returns (r: Outcome)
      modifies this
      ensures executed == old(executed) + [Command(LockText(data))]
      ensures data == old(data)
      ensures r == execute(Command(LockText(data)))
    {
      var command := Command("LOCK TABLES " + Implode(",", data) + ";");
      executed := executed + [command];
      r := execute(command);
    }

    /** add($table, $hints) */
    method Add(table: string, hints: Option<seq<string>>) returns (r: Outcome)
      modifies this
      ensures prepareIdentifier(table).Ok? ==>
                r == Pass && data == old(data) + [prepareIdentifier(table).value + " " + Implode("|", Modes(hints))]
      ensures prepareIdentifier(table).Err? ==> r == Fail(prepareIdentifier(table).error) && data == old(data)
      ensures executed == old(executed)
    {
      var modes: seq<string> := [];
      if hints.Some? {
        var i := 0;
        while i < |hints.value|
          invariant 0 <= i <= |hints.value|
          invariant modes == AcceptedModes(hints.value[..i])
        {
          var hint := hints.value[i];
          if IsAcceptedHint(hint) {
            modes := modes + [ToUpper(hint)];
          }
          assert hints.value[..i + 1][..i] == hints.value[..i];
          i := i + 1;
        }
        assert hints.value[..i] == hints.value;
      }
      if modes == [] {
        modes := modes + ["WRITE"];
      }
      var identifier := prepareIdentifier(table);
      if identifier.Err? {
        return Fail(identifier.error);
      }
      data := data + [identifier.value + " " + Implode("|", modes)];
      r := Pass;
    }

    /** release($method): the method argument is not used. */
    method Release(releaseMethod: string) returns (r: Outcome)
      modifies this
      ensures executed == old(executed) + [Command(UnlockText)]
      ensures data == old(data)
      ensures r == execute(Command(UnlockText))
    {
      var command := Command("UNLOCK TABLES;");
      executed := executed + [command];
      r := execute(command);
    }
  }

  // ---------------------------------------------------------------- properties of the modes

  lemma ToUpperIdempotent(s: string)
    ensures ToUpper(ToUpper(s)) == ToUpper(s)
  {
  }

  lemma UpperStartsWith(h: string, prefix: string)
    requires StartsWithIgnoringCase(h, prefix)
    ensures StartsWithIgnoringCase(ToUpper(h), prefix)
  {
    var u := ToUpper(h);
    assert u[..|prefix|] == ToUpper(h[..|prefix|]);
    ToUpperIdempotent(h[..|prefix|]);
  }

  lemma UpperEndsWith(h: string, suffix: string)
    requires EndsWithIgnoringCase(h, suffix)
    ensures EndsWithIgnoringCase(ToUpper(h), suffix)
  {
    var u := ToUpper(h);
    var k := |h| - |suffix|;
    assert u[k..] == ToUpper(h[k..]);
    ToUpperIdempotent(h[k..]);
  }

  lemma UpperEndsWithRead(h: string)
    requires EndsWithRead(h)
    ensures EndsWithRead(ToUpper(h))
  {
    if EndsWithIgnoringCase(h, "READ") {
      UpperEndsWith(h, "READ");
    } else {
      UpperEndsWith(h, "READ LOCAL");
    }
  }

  /** Upper-casing an accepted hint keeps it accepted. */
  lemma UpperHintAccepted(h: string)
    requires IsAcceptedHint(h)
    ensures IsAcceptedHint(ToUpper(h))
  {
    var u := ToUpper(h);
    if StartsWithIgnoringCase(h, "WRITE") {
      UpperStartsWith(h, "WRITE");
    } else if StartsWithIgnoringCase(h, "LOW_PRIORITY WRITE") {
      UpperStartsWith(h, "LOW_PRIORITY WRITE");
    } else if EndsWithRead(h) {
      UpperEndsWithRead(h);
    } else {
      var g := h[..|h| - 1];
      assert u[..|u| - 1] == ToUpper(g);
      UpperEndsWithRead(g);
    }
  }

  /** Every accepted mode is an upper-case hint the filter accepts, and there are no more modes than hints. */
  lemma {:induction false} AcceptedModesSound(hints: seq<string>)
    ensures |AcceptedModes(hints)| <= |hints|
    ensures forall k :: 0 <= k < |AcceptedModes(hints)| ==>
              IsAcceptedHint(AcceptedModes(hints)[k]) && ToUpper(AcceptedModes(hints)[k]) == AcceptedModes(hints)[k]
    decreases |hints|
  {
    if hints != [] {
      var init := hints[..|hints| - 1];
      var last := hints[|hints| - 1];
      AcceptedModesSound(init);
      if IsAcceptedHint(last) {
        UpperHintAccepted(last);
        ToUpperIdempotent(last);
        assert AcceptedModes(hints) == AcceptedModes(init) + [ToUpper(last)];
      } else {
        assert AcceptedModes(hints) == AcceptedModes(init);
      }
    }
  }

  /** A hint the filter rejects leaves no trace: when every hint is rejected there are no modes. */
  lemma {:induction false} AcceptedModesNone(hints: seq<string>)
    requires forall k :: 0 <= k < |hints| ==> !IsAcceptedHint(hints[k])
    ensures AcceptedModes(hints) == []
    decreases |hints|
  {
    if hints != [] {
      var init := hints[..|hints| - 1];
      assert forall k :: 0 <= k < |init| ==> init[k] == hints[k];
      AcceptedModesNone(init);
    }
  }

  /** When every hint is accepted, the modes are all the hints, upper-cased, in order. */
  lemma {:induction false} AcceptedModesAll(hints: seq<string>)
    requires forall k :: 0 <= k < |hints| ==> IsAcceptedHint(hints[k])
    ensures AcceptedModes(hints) == seq(|hints|, k requires 0 <= k < |hints| => ToUpper(hints[k]))
    decreases |hints|
  {
    if hints != [] {
      var n := |hints| - 1;
      var init := hints[..n];
      var front := seq(|init|, k requires 0 <= k < |init| => ToUpper(init[k]));
      assert AcceptedModes(init) == front by {
        assert forall k :: 0 <= k < |init| ==> init[k] == hints[k];
        AcceptedModesAll(init);
      }
      assert AcceptedModes(hints) == AcceptedModes(init) + [ToUpper(hints[n])] by {
        assert IsAcceptedHint(hints[n]);
      }
      assert seq(|hints|, k requires 0 <= k < |hints| => ToUpper(hints[k])) == front + [ToUpper(hints[n])];
    }
  }

  /** The modes are never empty, and they are WRITE alone exactly when no hint was accepted. */
  lemma ModesNeverEmpty(hints: Option<seq<string>>)
    ensures |Modes(hints)| >= 1
    ensures Modes(hints) == ["WRITE"] <==>
              hints.None? || AcceptedModes(hints.value) == [] || AcceptedModes(hints.value) == ["WRITE"]
    ensures hints.None? ==> Modes(hints) == ["WRITE"]
  {
  }

  lemma Regroup4(a: string, b: string, c: string, d: string, e: string)
    ensures a + (b + c + d) + e == a + b + c + d + e
  {
  }

  /** Adding an entry extends the LOCK TABLES statement by a comma and that entry. */
  lemma LockTextAfterAdd(data: seq<string>, entry: string)
    ensures |data| > 0 ==> LockText(data + [entry]) == "LOCK TABLES " + Implode(",", data) + "," + entry + ";"
    ensures |data| == 0 ==> LockText(data + [entry]) == "LOCK TABLES " + entry + ";"
  {
    if |data| > 0 {
      var joined := Implode(",", data);
      ImplodeSnoc(",", data, entry);
      assert Implode(",", data + [entry]) == joined + "," + entry;
      Regroup4("LOCK TABLES ", joined, ",", entry, ";");
    } else {
      assert data + [entry] == [entry];
    }
  }
}
