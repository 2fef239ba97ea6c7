/** Power-state resolution (`get_power_state`): the instance view of a VM
    carries a list of status codes such as `ProvisioningState/succeeded` and
    `PowerState/running`; the first code that is present and begins with
    `PowerState/` decides the state, which is the lower-cased text after its
    last `/`. Without such a code the state is `unknown`. The instance-view
    call itself belongs to the cloud client; here its answer is the input. */
module PowerStates {
  import opened Wrappers
  import opened PyStr

  const PowerStatePrefix: string := "PowerState/"
  const Unknown: string := "unknown"

  /** `s.code and s.code.startswith("PowerState/")`: the code is present,
      non-empty and carries the prefix. */
  predicate IsPowerStateCode(code: Option<string>) {
    code.Some? && code.value != "" && StartsWith(code.value, PowerStatePrefix)
  }

  /** `code.split("/")[-1].lower()`: a `/`-free suffix of the code,
      lower-cased; `StateOfCodeAfterLastSlash` adds that the suffix starts
      right after the code's last `/`. */
  function StateOfCode(code: string): (state: string)
    ensures '/' !in state
    ensures forall k :: 0 <= k < |state| ==> !('A' <= state[k] <= 'Z')
    ensures |state| <= |code|
    ensures state == Lower(code[|code| - |state|..])
  {
    var last := LastPiece(code, '/');
    var state := Lower(last);
    assert forall k :: 0 <= k < |state| ==> state[k] == LowerChar(last[k]);
    state
  }

  /** The scan over the status codes of one instance view. */
  function PowerStateOf(codes: seq<Option<string>>): (state: string)
    ensures (forall i :: 0 <= i < |codes| ==> !IsPowerStateCode(codes[i])) ==> state == Unknown
    ensures forall i :: 0 <= i < |codes| && IsPowerStateCode(codes[i])
                        && (forall j :: 0 <= j < i ==> !IsPowerStateCode(codes[j]))
                        ==> state == StateOfCode(codes[i].value)
    ensures '/' !in state
  {
    if |codes| == 0 then Unknown
    else if IsPowerStateCode(codes[0]) then StateOfCode(codes[0].value)
    else
      assert forall i :: 1 <= i < |codes| ==> codes[i] == codes[1..][i - 1];
      PowerStateOf(codes[1..])
  }

  /** A code `PowerState/<x>` with a `/`-free `<x>` resolves to `<x>`
      lower-cased; `PowerState/` alone resolves to the empty state. */
  lemma {:induction false} StateOfPowerStateCode(x: string)
    requires '/' !in x
    ensures StateOfCode(PowerStatePrefix + x) == Lower(x)
    ensures StateOfCode(PowerStatePrefix) == ""
  {
    assert '/' !in "PowerState";
    assert PowerStatePrefix + x == "PowerState" + ['/'] + x;
    SplitAtSep("PowerState", '/', x);
    SplitWithoutSep(x, '/');
    assert PowerStatePrefix == "PowerState" + ['/'] + "";
    SplitAtSep("PowerState", '/', "");
  }

  /** The state is the text after the code's last `/`, or the whole code
      lower-cased when it has no `/`. */
  lemma StateOfCodeAfterLastSlash(code: string)
    ensures var state := StateOfCode(code);
            |state| == |code| || code[|code| - |state| - 1] == '/'
  {
    LastPieceStartsAfterSep(code, '/');
  }

  /** Whatever precedes the last `/`, the state is the text after it,
      lower-cased. */
  lemma StateAfterLastSlash(head: string, x: string)
    requires '/' !in x
    ensures StateOfCode(head + "/" + x) == Lower(x)
  {
    assert head + "/" + x == head + ['/'] + x;
    LastPieceAfterSep(head, '/', x);
  }

  /** `PowerState/a/B` resolves to `b`: only the last piece counts. */
  lemma StateOfNestedCode()
    ensures StateOfCode(PowerStatePrefix + "a" + "/" + "B") == "b"
  {
    StateAfterLastSlash(PowerStatePrefix + "a", "B");
    assert Lower("B")[0] == LowerChar('B') == 'b';
  }

  /** Once a power-state code has been found, whatever follows it is
      ignored, and so is every code before it that is missing, empty or of
      another kind. */
  lemma FirstPowerStateWins(before: seq<Option<string>>, code: string,
                             after: seq<Option<string>>)
    requires forall j :: 0 <= j < |before| ==> !IsPowerStateCode(before[j])
    requires IsPowerStateCode(Some(code))
    ensures PowerStateOf(before + [Some(code)] + after) == StateOfCode(code)
  {
    var codes := before + [Some(code)] + after;
    assert codes[|before|] == Some(code);
    assert forall j :: 0 <= j < |before| ==> codes[j] == before[j];
  }
}
