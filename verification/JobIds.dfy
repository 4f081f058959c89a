/** Job ids of the form `PR-YYYYMMDD-NNN` and the search for a free one
  * (backend/src/utils/jobIdGenerator.js). */
module JobIds {
  import opened Decimals
  import opened Wrappers

  type JobId = string

  const CANDIDATES: nat := 1000

  function PadStart(s: string, width: nat): string
    decreases width - |s|
  {
    if |s| >= width then s else PadStart("0" + s, width)
  }

  function PadSequence(sequence: nat): string {
    PadStart(Decimal(sequence), 3)
  }

  lemma {:induction false} LeadingZero(s: string)
    ensures NumberOf("0" + s) == NumberOf(s)
    decreases |s|
  {
    if s == "" {
      assert ("0" + s)[..0] == "";
    } else {
      LeadingZero(s[..|s| - 1]);
      assert ("0" + s)[..|s|] == "0" + s[..|s| - 1];
    }
  }

  lemma {:induction false} PaddingReadsBack(s: string, width: nat)
    ensures NumberOf(PadStart(s, width)) == NumberOf(s)
    decreases width - |s|
  {
    if |s| < width {
      PaddingReadsBack("0" + s, width);
      LeadingZero(s);
    }
  }

  /** The number read out of a job id is the sequence it was built from, so padding is injective. */
  lemma {:induction false} SequenceReadsBack(sequence: nat)
    ensures NumberOf(PadSequence(sequence)) == sequence
  {
    PaddingReadsBack(Decimal(sequence), 3);
    DecimalReadsBack(sequence);
  }

  predicate IsDate(date: string) {
    |date| == 8
  }

  function Candidate(date: string, sequence: nat): JobId {
    "PR-" + date + "-" + PadSequence(sequence)
  }

  /** Different dates or different sequences never give the same id. */
  lemma {:induction false} CandidatesAreDistinct(date: string, sequence: nat, date': string, sequence': nat)
    requires IsDate(date) && IsDate(date')
    ensures Candidate(date, sequence) == Candidate(date', sequence') <==> date == date' && sequence == sequence'
  {
    var id, id' := Candidate(date, sequence), Candidate(date', sequence');
    assert id[3..11] == date && id[12..] == PadSequence(sequence);
    assert id'[3..11] == date' && id'[12..] == PadSequence(sequence');
    SequenceReadsBack(sequence);
    SequenceReadsBack(sequence');
  }

  lemma {:induction false} DecimalLength(n: nat)
    ensures n < 10 <==> |Decimal(n)| == 1
    ensures n < 100 <==> |Decimal(n)| <= 2
    ensures n < 1000 <==> |Decimal(n)| <= 3
  {
    DigitDropped(n);
    DigitDropped(n / 10);
    DigitDropped(n / 10 / 10);
    assert n / 10 < 10 <==> n < 100;
    assert n / 10 / 10 < 10 <==> n < 1000;
  }

  lemma {:induction false} DigitDropped(n: nat)
    ensures if n < 10 then |Decimal(n)| == 1 else |Decimal(n)| == |Decimal(n / 10)| + 1
  {
  }

  /** An id reads as its date and its number, written with three digits as long as three are enough and
    * without padding beyond that. */
  lemma {:induction false} CandidateForm(date: string, sequence: nat)
    requires IsDate(date)
    ensures var id := Candidate(date, sequence);
            && |id| >= 15 && id[..3] == "PR-" && id[3..11] == date && id[11] == '-'
            && NumberOf(id[12..]) == sequence
            && (sequence < 1000 <==> |id| == 15) && (sequence >= 100 ==> id[12..] == Decimal(sequence))
  {
    var id, digits := Candidate(date, sequence), Decimal(sequence);
    assert id[12..] == PadSequence(sequence);
    SequenceReadsBack(sequence);
    DecimalLength(sequence);
    if |digits| == 1 {
      assert PadSequence(sequence) == PadStart("0" + digits, 3) == PadStart("0" + ("0" + digits), 3);
    }
  }

  /** Where the search starts: one above the latest id's sequence, or at 1. */
  function FirstSequence(latest: Option<nat>): nat {
    if latest.Some? then latest.value + 1 else 1
  }

  /** Distinct candidates need distinct members. */
  lemma {:induction false} TakenCandidates(date: string, first: nat, n: nat, taken: set<JobId>)
    requires IsDate(date)
    requires forall k | first <= k < first + n :: Candidate(date, k) in taken
    ensures |taken| >= n
    decreases n
  {
    if n > 0 {
      var id := Candidate(date, first);
      forall k | first + 1 <= k < first + n
        ensures Candidate(date, k) in taken - {id}
      {
        CandidatesAreDistinct(date, k, date, first);
      }
      TakenCandidates(date, first + 1, n - 1, taken - {id});
    }
  }

  /** The module state of the generator. Which ids are stored is asked of the store, once per
    * candidate; here the store is taken to stand still during the search (`JobCreation` interleaves). */
  class JobIdGenerator {
    var reservedJobIds: set<JobId>

    constructor ()
      ensures reservedJobIds == {}
    {
      reservedJobIds := {};
    }

    predicate Taken(stored: set<JobId>, id: JobId)
      reads this
    {
      id in reservedJobIds || id in stored
    }

    /** Reserves the first candidate that is neither reserved nor stored, and fails only when all are:
      * then at least a thousand ids are reserved or stored. */
    method ReserveUniqueJobId(date: string, latest: Option<nat>, stored: set<JobId>)
      returns (r: Result<JobId, string>, ghost sequence: nat)
      requires IsDate(date)
      modifies this
      ensures r.Ok? ==>
        && r.value == Candidate(date, sequence)
        && r.value !in old(reservedJobIds) && r.value !in stored
        && (var first := if latest.Some? then latest.value + 1 else 1;
            && first <= sequence < first + 1000
            && forall k | first <= k < sequence ::
                 Candidate(date, k) in old(reservedJobIds) || Candidate(date, k) in stored)
        && reservedJobIds == old(reservedJobIds) + {r.value}
      ensures r.Err? ==>
        && reservedJobIds == old(reservedJobIds)
        && |reservedJobIds + stored| >= 1000
    {
      var first := FirstSequence(latest);
      var next := first;
      while next < first + CANDIDATES
        invariant first <= next <= first + CANDIDATES
        invariant reservedJobIds == old(reservedJobIds)
        invariant forall k | first <= k < next :: Taken(stored, Candidate(date, k))
      {
        var candidate := Candidate(date, next);
        if candidate !in reservedJobIds {
          if candidate !in stored {
            reservedJobIds := reservedJobIds + {candidate};
            return Ok(candidate), next;
          }
        }
        next := next + 1;
      }
      TakenCandidates(date, first, CANDIDATES, reservedJobIds + stored);
      return Err("Unable to generate a unique job ID"), next;
    }

    method Release(id: JobId)
      modifies this
      ensures reservedJobIds == old(reservedJobIds) - {id}
    {
      reservedJobIds := reservedJobIds - {id};
    }

    /** An id for immediate use: it is neither reserved nor stored, and the reservation made to find it
      * is gone again, so the reservations of others are untouched whether it succeeds or fails. */
    method GenerateUniqueJobId(date: string, latest: Option<nat>, stored: set<JobId>) returns (r: Result<JobId, string>)
      requires IsDate(date)
      modifies this
      ensures reservedJobIds == old(reservedJobIds)
      ensures r.Ok? ==> r.value !in reservedJobIds && r.value !in stored
      ensures r.Err? ==> |reservedJobIds + stored| >= 1000
    {
      var reserved, _ := ReserveUniqueJobId(date, latest, stored);
      if reserved.Err? {
        return Err(reserved.error);
      }
      Release(reserved.value);
      return Ok(reserved.value);
    }
  }
}
