/** Vocabulary shared by every module: optional values, refusals and bytes. */
module Common {
  newtype Byte = x: int | 0 <= x < 256

  type Bytes = seq<Byte>

  datatype Option<+T> = None | Some(value: T)

  datatype Result<+T, +E> = Ok(value: T) | Err(error: E)

  ghost predicate Distinct<T(!new)>(s: seq<T>) {
    forall i, j :: 0 <= i < j < |s| ==> s[i] != s[j]
  }

  function Last<T>(s: seq<T>): T
    requires s != []
  {
    s[|s| - 1]
  }
}

/** What the crash-resumable repairs share: files that a crash can tear, and how a step ends. */
module CrashDisk {
  import opened Common

  /** A file whose exclusive creation was interrupted is `Torn`; no reader accepts it. */
  datatype Content = Whole(data: Bytes) | Torn

  /** How a step or a whole attempt ends: a refusal is an exception the script raises. */
  datatype Outcome = Done | Refused | Crashed {
    predicate IsFailure() {
      !Done?
    }

    function PropagateFailure(): Outcome
      requires IsFailure()
    {
      this
    }
  }
}

/** Runs of consecutive characters, for the alphabets of names. */
module Alphabet {
  /** The `n` characters from `first` on. */
  function Range(first: char, n: nat): (s: string)
    requires first as int + n < 0xD800
    ensures |s| == n && forall i :: 0 <= i < n ==> s[i] as int == first as int + i
  {
    seq(n, i requires 0 <= i < n => (first as int + i) as char)
  }

  lemma InRange(c: char, first: char, n: nat)
    requires first as int + n < 0xD800
    ensures c in Range(first, n) <==> first as int <= c as int < first as int + n
  {
    if first as int <= c as int < first as int + n {
      assert Range(first, n)[c as int - first as int] == c;
    }
  }
}
