/** servers/nginx/ngx_http_mesi_module.c, ngx_http_html_mesi_body_filter: collecting a page
    in a growing buffer, processing it at its end, or passing it on when it is too large. */
module BodyFilter {
  import opened Strings

  type Byte = bv8

  /** A buffer of the chain: its bytes, and whether it is the page's last. */
  datatype Buf = Buf(bytes: seq<Byte>, last: bool)

  datatype OnOversize = Pass | Error

  /** `maxBody` 0 is unlimited; `page` is the first capacity asked for. */
  datatype Limit = Limit(maxBody: nat, mode: OnOversize, page: nat) {
    predicate Valid() {
      page >= 1
    }
    predicate TooLarge(n: nat) {
      maxBody > 0 && n > maxBody
    }
  }

  /** How one pass over a chain ends: all of it taken in; the page complete; too large and passed
      on from a buffer on; or too large and aborted. */
  datatype Outcome =
    | Kept(acc: seq<Byte>)
    | Complete(acc: seq<Byte>)
    | PassedOn(acc: seq<Byte>, rest: seq<Buf>)
    | Aborted(acc: seq<Byte>)

  function Collect(l: Limit, acc: seq<Byte>, done: bool, bufs: seq<Buf>): Outcome
    decreases |bufs|
  {
    if bufs == [] then Kept(acc)
    else
      var b := bufs[0];
      if |b.bytes| > 0 && !done && l.TooLarge(|acc| + |b.bytes|) then
        if l.mode == Error then Aborted(acc) else PassedOn(acc, bufs)
      else
        var acc' := if !done then acc + b.bytes else acc;
        if b.last && !done then Complete(acc') else Collect(l, acc', done, bufs[1..])
  }

  lemma CollectUnfolds(l: Limit, acc: seq<Byte>, done: bool, bufs: seq<Buf>, k: nat)
    requires k < |bufs|
    ensures
      var b := bufs[k];
      var acc' := if !done then acc + b.bytes else acc;
      Collect(l, acc, done, bufs[k..]) ==
      if |b.bytes| > 0 && !done && l.TooLarge(|acc| + |b.bytes|) then
        if l.mode == Error then Aborted(acc) else PassedOn(acc, bufs[k..])
      else if b.last && !done then Complete(acc')
      else Collect(l, acc', done, bufs[k + 1..])
  {
    assert bufs[k..][1..] == bufs[k + 1..];
  }

  lemma NothingToCollect(l: Limit, acc: seq<Byte>, done: bool)
    ensures Collect(l, acc, done, []) == Kept(acc)
  {
  }

  class FilterCtx {
    var data: array<Byte>
    var len: nat
    var capacity: nat
    var done: bool
    var passthrough: bool
    // How many bytes have been copied from an old buffer to a new one.
    ghost var recopied: nat

    constructor ()
      ensures fresh(data) && forall l: Limit :: Valid(l)
      ensures Accumulated() == [] && !done && !passthrough
    {
      data := new Byte[0];
      len, capacity, done, passthrough, recopied := 0, 0, false, false, 0;
    }

    /** Capacity never exceeds a set limit, and growing has copied at most twice the bytes collected. */
    ghost predicate Valid(l: Limit)
      reads this
    {
      && data.Length == capacity && len <= capacity
      && (l.maxBody > 0 ==> capacity <= l.maxBody)
      && recopied <= 2 * len
      && (recopied <= capacity || (l.maxBody > 0 && capacity == l.maxBody))
    }

    ghost function Accumulated(): seq<Byte>
      requires len <= data.Length
      reads this, data
    {
      data[..len]
    }

    /** Makes room for `newLen` bytes. */
    method Grow(l: Limit, newLen: nat)
      requires l.Valid() && Valid(l) && newLen > len && !l.TooLarge(newLen)
      modifies this`data, this`capacity, this`recopied
      ensures data.Length == capacity && capacity >= newLen
      ensures l.maxBody > 0 ==> capacity <= l.maxBody
      ensures data[..len] == old(data[..len])
      ensures recopied <= 2 * newLen
      ensures recopied <= capacity || (l.maxBody > 0 && capacity == l.maxBody)
      ensures data == old(data) || fresh(data)
    {
      if newLen > capacity {
        var newCap := if capacity > 0 then capacity else l.page;
        while newCap < newLen
          invariant newCap >= 1
          invariant capacity > 0 ==> newCap == capacity || newCap >= 2 * capacity
          decreases newLen - newCap
        {
          newCap := newCap * 2;
        }
        if l.maxBody > 0 && newCap > l.maxBody {
          newCap := l.maxBody;
        }
        var newData := new Byte[newCap];
        for i := 0 to len
          invariant newData[..i] == data[..i]
          modifies newData
        {
          newData[i] := data[i];
        }
        recopied := recopied + len;
        data := newData;
        capacity := newCap;
      }
    }

    /** Takes the bytes of one buffer in. */
    method Append(l: Limit, bytes: seq<Byte>)
      requires l.Valid() && Valid(l) && |bytes| > 0 && !l.TooLarge(len + |bytes|)
      modifies this`data, this`capacity, this`recopied, this`len, data
      ensures Valid(l) && Accumulated() == old(Accumulated()) + bytes
      ensures data == old(data) || fresh(data)
    {
      var newLen := len + |bytes|;
      Grow(l, newLen);
      ghost var was := data[..len];
      for i := 0 to |bytes|
        invariant data[..len] == was
        invariant data[len..len + i] == bytes[..i]
        modifies data
      {
        data[len + i] := bytes[i];
      }
      assert data[..newLen] == data[..len] + data[len..len + |bytes|];
      len := newLen;
    }

    /** One call of the filter outside passthrough mode, up to handing something to the next filter. `consumed` is how
        many buffers were marked as read: all of them, those up to the first last one, or those before the first that
        does not fit. */
    method Take(l: Limit, bufs: seq<Buf>) returns (outcome: Outcome, consumed: nat)
      requires l.Valid() && Valid(l) && !passthrough
      modifies this, data
      ensures Valid(l)
      ensures outcome == Collect(l, old(Accumulated()), old(done), bufs)
      ensures Accumulated() == outcome.acc
      ensures done == (old(done) || outcome.Complete?)
      ensures passthrough == outcome.PassedOn?
      ensures consumed <= |bufs|
      ensures outcome.acc == old(Accumulated()) + if old(done) then [] else Bytes(bufs[..consumed])
      ensures outcome.Kept? ==> consumed == |bufs| && (old(done) || NoneLast(bufs))
      ensures outcome.Complete? ==> 0 < consumed && bufs[consumed - 1].last && NoneLast(bufs[..consumed - 1])
      ensures outcome.PassedOn? || outcome.Aborted? ==>
        && consumed < |bufs| && NoneLast(bufs[..consumed])
        && l.maxBody > 0 && |outcome.acc| + |bufs[consumed].bytes| > l.maxBody
      ensures outcome.PassedOn? ==> l.mode == Pass
      ensures outcome.Aborted? ==> l.mode == Error
      ensures outcome.PassedOn? ==> outcome.rest == bufs[consumed..]
    {
      hide Collect, Bytes;
      NoBytes();
      assert bufs[0..] == bufs && Accumulated() + [] == Accumulated();
      consumed := 0;
      while consumed < |bufs|
        invariant 0 <= consumed <= |bufs|
        invariant Valid(l) && !passthrough && done == old(done)
        invariant data == old(data) || fresh(data)
        invariant Accumulated() == old(Accumulated()) + if old(done) then [] else Bytes(bufs[..consumed])
        invariant old(done) || NoneLast(bufs[..consumed])
        invariant Collect(l, Accumulated(), done, bufs[consumed..]) == Collect(l, old(Accumulated()), old(done), bufs)
      {
        var buf := bufs[consumed];
        CollectUnfolds(l, Accumulated(), done, bufs, consumed);
        BytesUpTo(bufs, consumed);
        var size := |buf.bytes|;
        if size > 0 && !done {
          if l.maxBody > 0 && len + size > l.maxBody {
            if l.mode == Error {
              return Aborted(data[..len]), consumed;
            }
            passthrough := true;
            return PassedOn(data[..len], bufs[consumed..]), consumed;
          }
          Append(l, buf.bytes);
        } else {
          assert !done ==> Accumulated() + buf.bytes == Accumulated();
        }
        consumed := consumed + 1;
        if buf.last && !done {
          done := true;
          return Complete(data[..len]), consumed;
        }
      }
      NothingToCollect(l, Accumulated(), done);
      assert bufs[consumed..] == [] && bufs[..consumed] == bufs;
      outcome := Kept(data[..len]);
    }

    /** The filter: what it hands to the next one, buffer by buffer, or that it fails the response. */
    method Filter(l: Limit, bufs: seq<Buf>, parse: seq<Byte> -> seq<Byte>) returns (failed: bool, out: seq<Buf>)
      requires l.Valid() && Valid(l)
      modifies this, data
      ensures Valid(l)
      ensures (Session(Accumulated(), done, passthrough), out, failed)
           == AfterCall(l, Session(old(Accumulated()), old(done), old(passthrough)), bufs, parse)
    {
      if passthrough {
        return false, bufs;
      }
      var outcome, _ := Take(l, bufs);
      match outcome
      case Kept(_) => return false, [];
      case Aborted(_) => return true, [];
      case PassedOn(acc, rest) => return false, if |acc| > 0 then [Buf(acc, false)] + rest else rest;
      case Complete(acc) => return false, [Buf(parse(acc), true)];
    }
  }

  // ---- Whole responses ----

  datatype Session = Session(acc: seq<Byte>, done: bool, passthrough: bool)

  function AfterCall(l: Limit, s: Session, bufs: seq<Buf>, parse: seq<Byte> -> seq<Byte>): (Session, seq<Buf>, bool) {
    if s.passthrough then (s, bufs, false)
    else
      match Collect(l, s.acc, s.done, bufs)
      case Kept(acc) => (s.(acc := acc), [], false)
      case Complete(acc) => (s.(acc := acc, done := true), [Buf(parse(acc), true)], false)
      case PassedOn(acc, rest) =>
        (s.(acc := acc, passthrough := true), if |acc| > 0 then [Buf(acc, false)] + rest else rest, false)
      case Aborted(acc) => (s.(acc := acc), [], true)
  }

  function Bytes(bufs: seq<Buf>): seq<Byte> {
    if bufs == [] then [] else bufs[0].bytes + Bytes(bufs[1..])
  }

  lemma BytesUpTo(bufs: seq<Buf>, k: nat)
    requires k < |bufs|
    ensures Bytes(bufs[..k + 1]) == Bytes(bufs[..k]) + bufs[k].bytes
  {
    BytesConcat(bufs[..k], [bufs[k]]);
    assert bufs[..k + 1] == bufs[..k] + [bufs[k]];
  }

  predicate NoneLast(bufs: seq<Buf>) {
    forall i :: 0 <= i < |bufs| ==> !bufs[i].last
  }

  /** The bytes up to the first buffer marked as the last one, that one included. */
  function PageOf(bufs: seq<Buf>): seq<Byte> {
    if bufs == [] then []
    else if bufs[0].last then bufs[0].bytes
    else bufs[0].bytes + PageOf(bufs[1..])
  }

  predicate HasLast(bufs: seq<Buf>) {
    bufs != [] && (bufs[0].last || HasLast(bufs[1..]))
  }

  /** What one pass means, by the bytes alone. */
  lemma {:induction false} CollectMeans(l: Limit, acc: seq<Byte>, bufs: seq<Buf>)
    requires !l.TooLarge(|acc|)
    ensures
      var o, page := Collect(l, acc, false, bufs), acc + PageOf(bufs);
      && (o.Kept? ==>
            o.acc == acc + Bytes(bufs) && !HasLast(bufs) && !l.TooLarge(|o.acc|) && !l.TooLarge(|page|))
      && (o.Complete? ==> o.acc == page && HasLast(bufs) && !l.TooLarge(|page|))
      && (o.PassedOn? ==> o.acc + Bytes(o.rest) == acc + Bytes(bufs) && l.TooLarge(|page|) && l.mode == Pass)
      && (o.PassedOn? ==> (HasLast(o.rest) <==> HasLast(bufs)))
      && (o.Aborted? ==> l.TooLarge(|page|) && l.mode == Error)
    decreases |bufs|
  {
    if bufs == [] {
      assert acc + [] == acc;
    } else {
      var b := bufs[0];
      if !(|b.bytes| > 0 && l.TooLarge(|acc| + |b.bytes|)) && !b.last {
        CollectMeans(l, acc + b.bytes, bufs[1..]);
        assert acc + b.bytes + Bytes(bufs[1..]) == acc + Bytes(bufs);
        assert acc + b.bytes + PageOf(bufs[1..]) == acc + PageOf(bufs);
      }
    }
  }

  lemma {:induction false} DoneKeeps(l: Limit, acc: seq<Byte>, bufs: seq<Buf>)
    ensures Collect(l, acc, true, bufs) == Kept(acc)
    decreases |bufs|
  {
    if bufs != [] { DoneKeeps(l, acc, bufs[1..]); }
  }

  lemma {:induction false} BytesConcat(a: seq<Buf>, b: seq<Buf>)
    ensures Bytes(a + b) == Bytes(a) + Bytes(b)
    ensures HasLast(a + b) <==> HasLast(a) || HasLast(b)
    ensures PageOf(a + b) == if HasLast(a) then PageOf(a) else Bytes(a) + PageOf(b)
  {
    hide Bytes, PageOf, HasLast;
    if a == [] {
      NoBytes();
      assert a + b == b;
    } else {
      BytesCons(a);
      BytesCons(a + b);
      assert (a + b)[1..] == a[1..] + b;
      BytesConcat(a[1..], b);
      Assoc(a[0].bytes, Bytes(a[1..]), Bytes(b));
      Assoc(a[0].bytes, Bytes(a[1..]), PageOf(b));
    }
  }

  lemma BytesCons(bufs: seq<Buf>)
    requires bufs != []
    ensures Bytes(bufs) == bufs[0].bytes + Bytes(bufs[1..])
    ensures HasLast(bufs) <==> bufs[0].last || HasLast(bufs[1..])
    ensures PageOf(bufs) == if bufs[0].last then bufs[0].bytes else bufs[0].bytes + PageOf(bufs[1..])
  {
  }

  /** The calls of a response, one chain each, until one fails it. */
  function Calls(l: Limit, s: Session, chains: seq<seq<Buf>>, parse: seq<Byte> -> seq<Byte>): (Session, seq<Buf>, bool)
    decreases |chains|
  {
    if chains == [] then (s, [], false)
    else
      var (s1, out, failed) := AfterCall(l, s, chains[0], parse);
      if failed then (s1, out, true)
      else
        var (s2, more, fails) := Calls(l, s1, chains[1..], parse);
        (s2, out + more, fails)
  }

  function All(chains: seq<seq<Buf>>): seq<Buf> {
    if chains == [] then [] else chains[0] + All(chains[1..])
  }

  /** After the buffers `seen`, with `out` handed on. */
  predicate Accounts(l: Limit, s: Session, seen: seq<Buf>, out: seq<Buf>, parse: seq<Byte> -> seq<Byte>) {
    && s.passthrough == l.TooLarge(|PageOf(seen)|)
    && (s.passthrough ==> Bytes(out) == Bytes(seen) && (HasLast(out) <==> HasLast(seen)))
    && (!s.passthrough ==> s.done == HasLast(seen))
    && (!s.passthrough && s.done ==> out == [Buf(parse(PageOf(seen)), true)])
    && (!s.passthrough && !s.done ==> out == [] && s.acc == Bytes(seen) && !l.TooLarge(|s.acc|))
  }

  lemma {:induction false} CallAccounts(
    l: Limit, s: Session, bufs: seq<Buf>, seen: seq<Buf>, out: seq<Buf>, parse: seq<Byte> -> seq<Byte>)
    requires Accounts(l, s, seen, out, parse)
    ensures
      var (s1, more, failed) := AfterCall(l, s, bufs, parse);
      && (!failed ==> Accounts(l, s1, seen + bufs, out + more, parse))
      && (failed ==> more == [] && out == [] && l.mode == Error && l.TooLarge(|PageOf(seen + bufs)|))
      && (l.mode == Error && !s.passthrough && !failed ==> !s1.passthrough)
  {
    hide Collect, Bytes, PageOf, HasLast;
    BytesConcat(seen, bufs);
    assert out + [] == out && [] + bufs == bufs;
    if s.passthrough {
      BytesConcat(out, bufs);
      PageGrows(seen, bufs);
    } else if s.done {
      DoneKeeps(l, s.acc, bufs);
    } else {
      CollectMeans(l, s.acc, bufs);
      var o := Collect(l, s.acc, false, bufs);
      if o.PassedOn? { HandedOn(o.acc, o.rest); }
      assert out == [] && forall more: seq<Buf> :: out + more == more;
    }
  }

  /** What was collected goes in front of what is left, if it is anything. */
  lemma HandedOn(acc: seq<Byte>, rest: seq<Buf>)
    ensures
      var out := if |acc| > 0 then [Buf(acc, false)] + rest else rest;
      Bytes(out) == acc + Bytes(rest) && (HasLast(out) <==> HasLast(rest))
  {
    assert |acc| == 0 ==> acc + Bytes(rest) == Bytes(rest);
    assert ([Buf(acc, false)] + rest)[1..] == rest;
  }

  lemma {:induction false} PageGrows(a: seq<Buf>, b: seq<Buf>)
    ensures |PageOf(a + b)| >= |PageOf(a)|
  {
    BytesConcat(a, b);
    PageWithin(a);
  }

  lemma {:induction false} PageWithin(a: seq<Buf>)
    ensures |PageOf(a)| <= |Bytes(a)|
  {
    if a != [] { PageWithin(a[1..]); }
  }

  lemma {:induction false} CallsAccount(
    l: Limit, s: Session, chains: seq<seq<Buf>>, seen: seq<Buf>, out: seq<Buf>, parse: seq<Byte> -> seq<Byte>)
    requires Accounts(l, s, seen, out, parse) && (l.mode == Error ==> !s.passthrough)
    ensures
      var (t, more, failed) := Calls(l, s, chains, parse);
      && (!failed ==> Accounts(l, t, seen + All(chains), out + more, parse))
      && (!failed && l.mode == Error ==> !t.passthrough)
      && (failed ==> l.mode == Error && l.TooLarge(|PageOf(seen + All(chains))|) && out + more == [])
    decreases |chains|
  {
    hide Accounts, AfterCall, Bytes, PageOf;
    if chains == [] {
      assert seen + [] == seen;
      NoBytes();
      assert out + [] == out;
    } else {
      var (s1, first, failed) := AfterCall(l, s, chains[0], parse);
      CallAccounts(l, s, chains[0], seen, out, parse);
      assert seen + chains[0] + All(chains[1..]) == seen + All(chains);
      if failed {
        PageGrows(seen + chains[0], All(chains[1..]));
        NoBytes();
      } else {
        CallsAccount(l, s1, chains[1..], seen + chains[0], out + first, parse);
        var (_, more, _) := Calls(l, s1, chains[1..], parse);
        assert out + first + more == out + (first + more);
      }
    }
  }

  lemma NoBytes()
    ensures Bytes([]) == [] && PageOf([]) == [] && !HasLast([])
  {
  }

  /** However the page is cut into buffers and the buffers into calls: a page over the limit fails the response or is
      handed on byte for byte, and any other page is handed on once, processed and in one last buffer, when its own last
      buffer has come. */
  lemma {:induction false} PageIsProcessedOrPassedOn(l: Limit, chains: seq<seq<Buf>>, parse: seq<Byte> -> seq<Byte>)
    ensures
      var (t, out, failed) := Calls(l, Session([], false, false), chains, parse);
      var all := All(chains);
      var over := l.maxBody > 0 && |PageOf(all)| > l.maxBody;
      && failed == (l.mode == Error && over)
      && (failed ==> out == [])
      && (!failed && over ==> Bytes(out) == Bytes(all) && (HasLast(out) <==> HasLast(all)))
      && (!over && HasLast(all) ==> out == [Buf(parse(PageOf(all)), true)])
      && (!over && !HasLast(all) ==> out == [] && t.acc == Bytes(all))
  {
    hide Calls;
    var s := Session([], false, false);
    assert Accounts(l, s, [], [], parse);
    CallsAccount(l, s, chains, [], [], parse);
    assert [] + All(chains) == All(chains);
    var (t, out, failed) := Calls(l, s, chains, parse);
    assert [] + out == out;
  }
}
