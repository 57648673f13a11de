/** The byte-counting response writer (app/internal/proxy/bodycounter.go), the source of the
    number `IncrBytes` is given. */
module BodyCounter {

  function Sum(ns: seq<nat>): nat {
    if ns == [] then 0 else Sum(ns[..|ns| - 1]) + ns[|ns| - 1]
  }

  class CountingResponseWriter {
    var status: int
    var bytes: nat
    ghost var written: seq<nat>   // what the wrapped writer accepted, call by call

    ghost predicate Valid()
      reads this
    {
      bytes == Sum(written)
    }

    constructor ()
      ensures Valid() && status == 200 && written == []
    {
      status, bytes, written := 200, 0, [];
    }

    method WriteHeader(code: int)
      requires Valid()
      modifies this`status
      ensures Valid() && status == code
    {
      status := code;
    }

    /** `accepted` is what the wrapped writer took, which can be less than it was given. */
    method Write(length: nat, accepted: nat) returns (n: nat)
      requires Valid() && accepted <= length
      modifies this`bytes, this`written
      ensures Valid() && n == accepted && written == old(written) + [accepted]
      ensures bytes == old(bytes) + accepted
    {
      bytes := bytes + accepted;
      written := written + [accepted];
      assert written[..|written| - 1] == old(written);
      n := accepted;
    }
  }
}
