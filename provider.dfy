/**
 * The provider behind the resource type. The real one shells out to the
 * `profiles` command; here it only records the calls it receives.
 */
module Provider {

  datatype ProviderCall = InstallCall | RemoveCall | RefreshCall

  /** The provider, reduced to the sequence of calls made on it. */
  class ProfileProvider {
    var calls: seq<ProviderCall>

    constructor ()
      ensures calls == []
    {
      calls := [];
    }

    method Install()
      modifies this
      ensures calls == old(calls) + [InstallCall]
    {
      calls := calls + [InstallCall];
    }

    method Remove()
      modifies this
      ensures calls == old(calls) + [RemoveCall]
    {
      calls := calls + [RemoveCall];
    }

    method Refresh()
      modifies this
      ensures calls == old(calls) + [RefreshCall]
    {
      calls := calls + [RefreshCall];
    }
  }

  /** How often `c` occurs in a call log. */
  function Occurrences(calls: seq<ProviderCall>, c: ProviderCall): (n: nat) {
    if calls == [] then 0
    else (if calls[0] == c then 1 else 0) + Occurrences(calls[1..], c)
  }

  lemma {:induction false} OccurrencesAppend(a: seq<ProviderCall>, b: seq<ProviderCall>, c: ProviderCall)
    ensures Occurrences(a + b, c) == Occurrences(a, c) + Occurrences(b, c)
  {
    if a == [] {
      assert a + b == b;
    } else {
      assert (a + b)[1..] == a[1..] + b;
      OccurrencesAppend(a[1..], b, c);
    }
  }
}
