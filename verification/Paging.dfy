/**
  Paging over the due carts (abandoned.py). The generator re-reads pages of a
  table that its own consumer shrinks: a reminded cart leaves the table, one whose
  mail failed stays.
*/
module Paging {
  import opened Basics

  /** What a cart is known by; never blank. */
  datatype Token = Token(text: string)

  function Minus(s: seq<Token>, token: Token): seq<Token>
  {
    if |s| == 0 then []
    else if s[|s| - 1] == token then Minus(s[..|s| - 1], token)
    else Minus(s[..|s| - 1], token) + [s[|s| - 1]]
  }

  /** Of the first k due carts, those whose reminder was not accepted, in their order. */
  function Kept(due: seq<Token>, accepted: nat -> bool, k: nat): seq<Token>
    requires k <= |due|
  {
    if k == 0 then []
    else Kept(due, accepted, k - 1) + if accepted(k - 1) then [] else [due[k - 1]]
  }

  function Clamp(value: int, low: int, high: int): int
  {
    if value < low then low else if value > high then high else value
  }

  /** A limit within its bounds is taken as it is, one beyond them as the bound. */
  lemma ClampIs(value: int, low: int, high: int)
    requires low <= high
    ensures low <= Clamp(value, low, high) <= high
    ensures forall x :: low <= x <= high ==> Distance(Clamp(value, low, high), value) <= Distance(x, value)
  {
  }

  function Distance(a: int, b: int): int
  {
    if a < b then b - a else a - b
  }

  /** What a worker will be handed: the oldest due carts, as many as its limit allows. */
  function Served(due: seq<Token>, limit: int): seq<Token>
  {
    due[..Least(Clamp(limit, 1, 5000), |due|)]
  }

  class CartTable {
    /** Tokens of the due carts, the longest idle first. */
    var due: seq<Token>

    constructor (due: seq<Token>)
      ensures this.due == due
    {
      this.due := due;
    }

    /** One page of the due carts. */
    method DueCarts(limit: int, offset: nat) returns (page: seq<Token>)
      ensures var most := Clamp(limit, 1, 100);
              page == if offset >= |due| then [] else due[offset..Least(offset + most, |due|)]
    {
      var most := Clamp(limit, 1, 100);
      page := if offset >= |due| then [] else due[offset..Least(offset + most, |due|)];
    }

    /** Hand a cart to the worker: an accepted reminder takes it out of the due window. */
    method SendOne(token: Token, accepted: bool)
      modifies this
      ensures due == if accepted then Minus(old(due), token) else old(due)
    {
      if accepted {
        due := Minus(due, token);
      }
    }

    /** Hand out one page that was read at this offset, skipping the carts already seen. */
    method ServePage(ghost due0: seq<Token>, accepted: nat -> bool, page: seq<Token>, ghost offset: nat,
                     most: nat, yielded: seq<Token>, seen: set<Token>)
      returns (yielded': seq<Token>, seen': set<Token>)
      requires Distinct(due0) && Progress(due0, accepted, due, yielded, seen) && |yielded| < most
      requires IsPage(due0, accepted, |yielded|, offset, page)
      modifies this
      ensures Progress(due0, accepted, due, yielded', seen') && |yielded'| <= most
      ensures |yielded'| >= |yielded|
      ensures |yielded'| < most ==> PageIsSeen(due0, accepted, |yielded|, |yielded'|, offset + |page|)
    {
      yielded', seen' := yielded, seen;
      for j := 0 to |page|
        invariant Progress(due0, accepted, due, yielded', seen')
        invariant |yielded| <= |yielded'| < most
        invariant PageIsSeen(due0, accepted, |yielded|, |yielded'|, offset + j)
      {
        RowStep(due0, accepted, due, yielded', seen', |yielded|, offset, page, j);
        if page[j] !in seen' {
          SendOne(page[j], accepted(|yielded'|));
          seen' := seen' + {page[j]};
          yielded' := yielded' + [page[j]];
          if |yielded'| >= most {
            return;
          }
        }
      }
    }

    /**
      Hand out the due carts page by page. Whatever the page size and whichever
      reminders fail, the worker gets exactly the oldest carts up to the limit, each
      once, and what stays due is exactly the rest and the failures.
    */
    method IterDueCarts(limit: int, pageSize: int, accepted: nat -> bool) returns (yielded: seq<Token>)
      requires Distinct(due)
      modifies this
      ensures yielded == Served(old(due), limit)
      ensures due == Rows(old(due), accepted, |yielded|)
    {
      ghost var due0 := due;
      var most, size := Clamp(limit, 1, 5000), Clamp(pageSize, 1, 100);
      var seen: set<Token> := {};
      var offset: nat := 0;
      yielded := [];
      while |yielded| < most
        invariant Progress(due0, accepted, due, yielded, seen) && |yielded| <= most
        invariant |yielded| < most ==> offset <= Behind(due0, accepted, |yielded|) || |yielded| == |due0|
        decreases |due0| - |yielded|, if offset < |due| then |due| - offset else 0
      {
        var want := Least(size, most - |yielded|);
        var page := DueCarts(want, offset);
        PageRead(due0, accepted, |yielded|, offset, page, want);
        if page == [] {
          return;
        }
        ghost var first := |yielded|;
        var served, seen' := ServePage(due0, accepted, page, offset, most, yielded, seen);
        PageDone(due0, accepted, first, |served|, most, offset, page, want);
        if |served| == |yielded| {
          offset := offset + want;
        }
        yielded, seen := served, seen';
      }
    }
  }

  /** A page read at a sound offset is a page of the table; an empty one means all were served. */
  lemma PageRead(due0: seq<Token>, accepted: nat -> bool, first: nat, offset: nat, page: seq<Token>, want: nat)
    requires Distinct(due0) && first <= |due0| && want > 0
    requires offset <= Behind(due0, accepted, first) || first == |due0|
    requires var rows := Rows(due0, accepted, first);
             page == if offset >= |rows| then [] else rows[offset..Least(offset + want, |rows|)]
    ensures if page == [] then first == |due0| else IsPage(due0, accepted, first, offset, page)
  {
  }

  lemma PageDone(due0: seq<Token>, accepted: nat -> bool, first: nat, now: nat, most: nat,
                 offset: nat, page: seq<Token>, want: nat)
    requires Distinct(due0) && first <= now <= |due0| && IsPage(due0, accepted, first, offset, page)
    requires |page| == Least(want, |Rows(due0, accepted, first)| - offset)
    requires now < most ==> PageIsSeen(due0, accepted, first, now, offset + |page|)
    ensures first < now ==> offset <= Behind(due0, accepted, now)
    ensures now == first && now < most ==> offset + want <= Behind(due0, accepted, now) || now == |due0|
  {
    BehindGrows(due0, accepted, first, now);
  }

  /** The table after the first k due carts were handed out. */
  function Rows(due0: seq<Token>, accepted: nat -> bool, k: nat): seq<Token>
    requires k <= |due0|
  {
    if k == 0 then due0
    else if accepted(k - 1) then Minus(Rows(due0, accepted, k - 1), due0[k - 1])
    else Rows(due0, accepted, k - 1)
  }

  /** How many of its leading rows have been handed out already. */
  function Behind(due0: seq<Token>, accepted: nat -> bool, k: nat): int
    requires k <= |due0|
  {
    |Rows(due0, accepted, k)| - (|due0| - k)
  }

  function Tokens(s: seq<Token>): set<Token>
  {
    set t | t in s
  }

  /** The carts handed out are the oldest, and the table is what the worker left of it. */
  ghost predicate Progress(due0: seq<Token>, accepted: nat -> bool, due: seq<Token>,
                           yielded: seq<Token>, seen: set<Token>)
  {
    && |yielded| <= |due0|
    && (forall i :: 0 <= i < |yielded| ==> yielded[i] == due0[i])
    && seen == Tokens(yielded)
    && due == Rows(due0, accepted, |yielded|)
  }

  /** A page that starts among the carts already seen, or just behind them. */
  ghost predicate IsPage(due0: seq<Token>, accepted: nat -> bool, first: nat, offset: nat, page: seq<Token>)
    requires first <= |due0|
  {
    && offset <= Behind(due0, accepted, first)
    && page != [] && offset + |page| <= |Rows(due0, accepted, first)|
    && forall j :: 0 <= j < |page| ==> page[j] == Rows(due0, accepted, first)[offset + j]
  }

  /** Position `to` of the table as it was after `first` carts is now seen up to. */
  ghost predicate PageIsSeen(due0: seq<Token>, accepted: nat -> bool, first: nat, now: nat, to: nat)
    requires first <= |due0|
  {
    var start := Behind(due0, accepted, first);
    now == if to <= start then first else first + (to - start)
  }

  /** Before its first unseen row the table holds only carts handed out, and from there the others in order. */
  lemma {:induction false} RowsSplit(due0: seq<Token>, accepted: nat -> bool, k: nat)
    requires Distinct(due0) && k <= |due0|
    ensures Rows(due0, accepted, k) == Kept(due0, accepted, k) + due0[k..]
  {
    if k == 0 {
      assert due0[0..] == due0;
    } else {
      RowsSplit(due0, accepted, k - 1);
      RowLeaves(due0, accepted, k - 1);
    }
  }

  lemma RowAt(due0: seq<Token>, accepted: nat -> bool, k: nat, at: nat) returns (i: nat)
    requires Distinct(due0) && k <= |due0| && at < |Rows(due0, accepted, k)|
    ensures Behind(due0, accepted, k) >= 0
    ensures i < |due0| && Rows(due0, accepted, k)[at] == due0[i]
    ensures if at < Behind(due0, accepted, k) then i < k else i == k + at - Behind(due0, accepted, k)
  {
    RowsSplit(due0, accepted, k);
    if at < Behind(due0, accepted, k) {
      KeptIsSeen(due0, accepted, k, at);
      i :| 0 <= i < k && due0[..k][i] == Kept(due0, accepted, k)[at];
    } else {
      i := k + at - Behind(due0, accepted, k);
    }
  }

  lemma BehindGrows(due0: seq<Token>, accepted: nat -> bool, a: nat, b: nat)
    requires Distinct(due0) && a <= b <= |due0|
    ensures 0 <= Behind(due0, accepted, a) <= Behind(due0, accepted, b)
  {
    RowsSplit(due0, accepted, a);
    RowsSplit(due0, accepted, b);
    KeptGrows(due0, accepted, a, b);
  }

  /** A row that was seen is passed over; any other is the next of the oldest, and is served. */
  lemma RowStep(due0: seq<Token>, accepted: nat -> bool, due: seq<Token>, yielded: seq<Token>,
                seen: set<Token>, first: nat, offset: nat, page: seq<Token>, j: nat)
    requires Distinct(due0) && Progress(due0, accepted, due, yielded, seen)
    requires first <= |yielded| && IsPage(due0, accepted, first, offset, page) && j < |page|
    requires PageIsSeen(due0, accepted, first, |yielded|, offset + j)
    ensures page[j] in seen ==> PageIsSeen(due0, accepted, first, |yielded|, offset + j + 1)
    ensures page[j] !in seen ==>
              && PageIsSeen(due0, accepted, first, |yielded| + 1, offset + j + 1)
              && Progress(due0, accepted, if accepted(|yielded|) then Minus(due, page[j]) else due,
                          yielded + [page[j]], seen + {page[j]})
  {
    var i := RowAt(due0, accepted, first, offset + j);
    if i < |yielded| {
      assert yielded[i] == due0[i] == page[j];
      assert page[j] in yielded;
    } else {
      assert i == |yielded|;
      assert forall h :: 0 <= h < |yielded| ==> yielded[h] != due0[i];
      assert Tokens(yielded + [page[j]]) == Tokens(yielded) + {page[j]};
    }
  }

  lemma {:induction false} KeptGrows(due: seq<Token>, accepted: nat -> bool, a: nat, b: nat)
    requires a <= b <= |due|
    ensures |Kept(due, accepted, a)| <= |Kept(due, accepted, b)|
  {
    if a < b {
      KeptGrows(due, accepted, a, b - 1);
    }
  }

  lemma {:induction false} KeptIsSeen(due: seq<Token>, accepted: nat -> bool, k: nat, i: nat)
    requires k <= |due| && i < |Kept(due, accepted, k)|
    ensures Kept(due, accepted, k)[i] in due[..k]
  {
    if i < |Kept(due, accepted, k - 1)| {
      KeptIsSeen(due, accepted, k - 1, i);
      assert due[..k] == due[..k - 1] + [due[k - 1]];
    } else {
      assert due[..k][k - 1] == due[k - 1];
    }
  }

  lemma FreshIsNew(due: seq<Token>, k: nat)
    requires Distinct(due) && k < |due|
    ensures due[k] !in due[..k]
  {
  }

  lemma {:induction false} MinusAppend(a: seq<Token>, b: seq<Token>, token: Token)
    ensures Minus(a + b, token) == Minus(a, token) + Minus(b, token)
    decreases |b|
  {
    if |b| == 0 {
      assert a + b == a;
    } else {
      assert (a + b)[..|a + b| - 1] == a + b[..|b| - 1];
      MinusAppend(a, b[..|b| - 1], token);
    }
  }

  lemma {:induction false} MinusAbsent(s: seq<Token>, token: Token)
    requires token !in s
    ensures Minus(s, token) == s
  {
    if |s| > 0 {
      MinusAbsent(s[..|s| - 1], token);
    }
  }

  /** Serving the k-th due cart: it leaves the table, or joins the kept ones. */
  lemma RowLeaves(due: seq<Token>, accepted: nat -> bool, k: nat)
    requires Distinct(due) && k < |due| && Rows(due, accepted, k) == Kept(due, accepted, k) + due[k..]
    ensures Rows(due, accepted, k + 1) == Kept(due, accepted, k + 1) + due[k + 1..]
  {
    var kept := Kept(due, accepted, k);
    assert due[k..] == [due[k]] + due[k + 1..];
    if accepted(k) {
      if due[k] in kept {
        var i :| 0 <= i < |kept| && kept[i] == due[k];
        KeptIsSeen(due, accepted, k, i);
        FreshIsNew(due, k);
      }
      assert kept + due[k..] == kept + [due[k]] + due[k + 1..];
      MinusAppend(kept + [due[k]], due[k + 1..], due[k]);
      MinusAppend(kept, [due[k]], due[k]);
      MinusAbsent(kept, due[k]);
      MinusAbsent(due[k + 1..], due[k]);
      assert Minus([due[k]], due[k]) == [];
    }
  }
}
