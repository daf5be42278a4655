/** The receiving endpoint as the code keeps it: pending messages are objects with a byte buffer, a
    bitmap and a counter that are updated in place. Each method is proved to do to the modelled value
    exactly what the corresponding step of the protocol does. */
module Endpoint {
  import opened Options
  import opened Chunks
  import opened Protocol
  import opened Bitmap

  /** memcpy of n bytes from the frame's payload to data + at. */
  method CopyIn(data: array<Cell>, at: nat, payload: seq<bv8>, n: nat)
    requires at + n <= data.Length
    modifies data
    ensures data[..] == Overlay(old(data[..]), at, ReadFrame(payload, n))
  {
    var i := 0;
    while i < n
      invariant i <= n
      invariant forall j :: 0 <= j < data.Length ==>
                  data[j] == if at <= j < at + i then ReadFrame(payload, n)[j - at] else old(data[j])
    {
      data[at + i] := if i < |payload| then Octet(payload[i]) else Undefined;
      i := i + 1;
    }
  }

  class PendingMessage {
    const amount: nat
    const data: array<Cell>
    const chunks: array<bv8>
    var received: nat

    ghost predicate Valid()
      reads this, chunks
    {
      chunks.Length == (amount + 7) / 8 && data as object != chunks
    }

    ghost function Model(): Pending
      reads this, data, chunks
    {
      Pending(amount, data[..], SetBits(chunks[..]), received)
    }

    /** create_new_pending_message, then the first chunk. */
    constructor (f: Frame, c: nat)
      requires f.Data? && f.index < f.amount && c <= f.length
      ensures Valid() && fresh(data) && fresh(chunks)
      ensures amount == f.amount && Model() == Start(f, c)
    {
      amount := f.amount;
      data := new Cell[f.length](_ => Undefined);
      chunks := new bv8[(f.amount + 7) / 8](_ => 0);
      received := 1;
      new;
      assert data[..] == Fresh(f.length);
      assert SetBits(chunks[..]) == {} by {
        EmptyBits(chunks[..]);
      }
      ChunkReceived(chunks, f.index);
      assert data[..] == Fresh(f.length);
      CopyIn(data, 0, f.payload, c);
      assert SetBits(chunks[..]) == {f.index};
    }

    method AlreadyReceived(index: nat) returns (b: bool)
      requires Valid() && index < amount
      ensures b <==> index in Model().got
    {
      b := ChunkAlreadyReceived(chunks, index);
    }

    /** The list of missing chunks, as far as it fits. */
    method Lost(size: nat) returns (lost: seq<nat>)
      requires Valid()
      ensures lost == Take(Missing(Model().got, amount), size / 4)
    {
      var buffer := new nat[size];
      ghost var got := Model().got;
      NamesSetBits(chunks[..], amount);
      var n := ReturnLostChunkIndexes(chunks, amount, size, buffer, got);
      lost := buffer[..n];
    }

    /** A chunk that is not there yet. */
    method Accept(f: Frame, c: nat)
      requires Valid() && f.Data? && c > 0 && f.index < amount
      requires c * f.index + BytesToWrite(f, c) <= data.Length
      modifies this`received, data, chunks
      ensures Valid() && Model() == Protocol.Accept(old(Model()), f, c)
    {
      ghost var before := Model();
      received := received + 1;
      CopyIn(data, c * f.index, f.payload, BytesToWrite(f, c));
      assert chunks[..] == old(chunks[..]);
      ghost var copied := data[..];
      ChunkReceived(chunks, f.index);
      assert data[..] == copied;
    }
  }

  lemma EmptyBits(bitmap: seq<bv8>)
    requires forall i :: 0 <= i < |bitmap| ==> bitmap[i] == 0
    ensures SetBits(bitmap) == {}
  {
    forall i: nat ensures i !in SetBits(bitmap) {
      SetBitsAre(bitmap, i);
    }
  }

  ghost predicate Apart(p: PendingMessage, q: PendingMessage) {
    && p != q && p.data != q.data && p.chunks != q.chunks
    && p.data as object != q.chunks && p.chunks as object != q.data
    && p as object != q.data && p as object != q.chunks && q as object != p.data && q as object != p.chunks
  }

  class Endpoint {
    const mtu: U16
    var pending: map<Key, PendingMessage>
    var history: set<Key>
    var queue: seq<Node>
    var slots: set<Id>
    ghost var handed: seq<Handed>
    ghost var Repr: set<object>

    /** Pending messages are distinct objects that share no buffer. */
    ghost predicate Valid()
      reads this`pending, this`Repr, Repr
    {
      && this !in Repr
      && (forall k :: k in pending ==> Owned(pending[k]) && pending[k].Valid())
      && (forall j, k :: j in pending && k in pending && j != k ==> Apart(pending[j], pending[k]))
    }

    ghost predicate Owned(p: PendingMessage)
      reads this`Repr
    {
      {p, p.data, p.chunks} <= Repr
    }

    ghost function Table(): map<Key, Pending>
      reads this`pending, this`Repr, Repr
      requires Valid()
    {
      map k | k in pending :: pending[k].Model()
    }

    ghost function Model(): Receiver
      reads this, Repr
      requires Valid()
    {
      Receiver(Table(), history, queue, slots, handed)
    }

    constructor (mtu: U16)
      ensures Valid() && fresh(Repr) && this.mtu == mtu
      ensures Model() == Receiver(map[], {}, [], {}, [])
    {
      this.mtu := mtu;
      pending, history, queue, slots, handed, Repr := map[], {}, [], {}, [], {};
    }

    /** handle_request_response or pass_callback_execution. */
    method HandOver(h: Handed, kind: Kind, isPending: bool)
      requires Valid()
      modifies this`pending, this`slots, this`handed, this`queue
      ensures Valid() && Repr == old(Repr)
      ensures Model() == HandOn(old(Model()), h, kind, isPending)
    {
      if kind.Response? {
        FillSlot(h, isPending);
      } else {
        queue := queue + [Node(h, isPending)];
        handed := handed + [h];
      }
    }

    /** The response goes to the request waiting for it, if one does, and leaves the pending table. */
    method FillSlot(h: Handed, isPending: bool)
      requires Valid()
      modifies this`pending, this`slots, this`handed
      ensures Valid() && Repr == old(Repr)
      ensures Model() == HandOn(old(Model()), h, Kind.Response, isPending)
    {
      if h.key.id in slots {
        if isPending {
          Forget(h.key);
        }
        slots := slots - {h.key.id};
        handed := handed + [h];
      }
    }

    /** Take a message out of the pending table. */
    method Forget(key: Key)
      requires Valid()
      modifies this`pending
      ensures Valid() && Model() == old(Model()).(pending := old(Model()).pending - {key})
    {
      ghost var before := Table();
      pending := pending - {key};
      forall k | k in pending ensures pending[k].Model() == before[k] {
      }
    }

    /** First frame of a message that is neither pending nor complete. */
    method Open(f: Frame, c: nat)
      requires Valid() && f.Data? && f.index < f.amount && 0 < c < f.length
      requires Key(f.port, f.id) !in pending
      modifies this
      ensures Valid() && fresh(Repr - old(Repr))
      ensures Model() == old(Model()).(pending := old(Model()).pending[Key(f.port, f.id) := Start(f, c)])
    {
      var key := Key(f.port, f.id);
      var p := new PendingMessage(f, c);
      Enter(key, p);
    }

    lemma NewcomerApart(p: PendingMessage)
      requires Valid() && p !in Repr && p.data !in Repr && p.chunks !in Repr
      ensures forall k :: k in pending ==> Apart(pending[k], p) && Apart(p, pending[k])
    {
      forall k | k in pending ensures Apart(pending[k], p) && Apart(p, pending[k]) {
        assert Owned(pending[k]);
      }
    }

    /** Put a message whose memory is its own into the table. */
    method Enter(key: Key, p: PendingMessage)
      requires Valid() && key !in pending && p.Valid()
      requires p !in Repr && p.data !in Repr && p.chunks !in Repr && p as object != p.data && p as object != p.chunks
      modifies this`pending, this`Repr
      ensures Valid() && Repr == old(Repr) + {p, p.data, p.chunks}
      ensures Model() == old(Model()).(pending := old(Model()).pending[key := p.Model()])
    {
      ghost var before := Table();
      NewcomerApart(p);
      pending := pending[key := p];
      Repr := Repr + {p, p.data, p.chunks};
      forall k | k in pending ensures pending[k].Model() == before[key := p.Model()][k] {
      }
    }

    /** A frame of a message in transfer. */
    method Continue(f: Frame, c: nat)
      requires Valid() && f.Data? && c > 0 && Key(f.port, f.id) in pending && Key(f.port, f.id) !in history
      requires var p := pending[Key(f.port, f.id)];
               && f.index < p.amount
               && (f.index !in p.Model().got ==> c * f.index + BytesToWrite(f, c) <= p.data.Length)
      modifies this, Repr
      ensures Valid() && Repr == old(Repr)
      ensures var key, r := Key(f.port, f.id), old(Model());
              var p := r.pending[key];
              if f.index in p.got then Model() == r
              else
                var r' := r.(pending := r.pending[key := Protocol.Accept(p, f, c)]);
                Model() == if p.received + 1 != f.amount then r'
                           else HandOn(r'.(history := r.history + {key}),
                                       Handed(key, Protocol.Accept(p, f, c).buffer), f.kind, true)
    {
      var key := Key(f.port, f.id);
      var p := pending[key];
      var seen := p.AlreadyReceived(f.index);
      if !seen {
        var last := p.received + 1 == f.amount;
        Store(key, f, c);
        if last {
          Finish(key, f.kind);
        }
      }
    }

    /** Record a message complete and hand it on. */
    method Finish(key: Key, kind: Kind)
      requires Valid() && key in pending
      modifies this
      ensures Valid() && Repr == old(Repr)
      ensures var r := old(Model());
              Model() == HandOn(r.(history := r.history + {key}), Handed(key, r.pending[key].buffer), kind, true)
    {
      assert Table()[key] == pending[key].Model();
      var data := pending[key].data[..];
      history := history + {key};
      assert Model() == old(Model()).(history := old(Model()).history + {key});
      HandOver(Handed(key, data), kind, true);
    }

    /** Update of one pending message; the others are untouched. */
    method Store(key: Key, f: Frame, c: nat)
      requires Valid() && f.Data? && c > 0 && key in pending
      requires f.index < pending[key].amount && c * f.index + BytesToWrite(f, c) <= pending[key].data.Length
      modifies Repr
      ensures Valid() && pending[key].Model() == Protocol.Accept(old(Model()).pending[key], f, c)
      ensures Model() == old(Model()).(pending := old(Model()).pending[key := pending[key].Model()])
    {
      ghost var before := Table();
      var p := pending[key];
      p.Accept(f, c);
      forall k | k in pending && k != key ensures pending[k].Valid() && pending[k].Model() == before[k] {
        assert Apart(pending[k], p);
      }
      assert Table() == before[key := p.Model()];
    }

    /** One dequeued data frame. The bounds required are those the code relies on without a check. */
    method ReceiveFrame(f: Frame)
      requires Valid() && f.Data? && Min(f.mtu, mtu) > HEADER && f.index < f.amount
      requires Key(f.port, f.id) in pending ==>
                 var p, c := pending[Key(f.port, f.id)], Min(f.mtu, mtu) - HEADER;
                 && f.index < p.amount
                 && (f.index !in p.Model().got ==> c * f.index + BytesToWrite(f, c) <= p.data.Length)
      modifies this, Repr
      ensures Valid() && fresh(Repr - old(Repr))
      ensures Model() == ReceiveData(old(Model()), mtu, f)
    {
      var key := Key(f.port, f.id);
      var c := Min(f.mtu, mtu) - HEADER;
      if key in history {
      } else if key in pending {
        Continue(f, c);
      } else if f.length > c {
        Open(f, c);
      } else {
        history := history + {key};
        assert Model() == old(Model()).(history := old(Model()).history + {key});
        HandOver(Handed(key, ReadFrame(f.payload, f.length)), f.kind, false);
      }
    }

    /** Reply to a poll: the lost list of a pending message, an acknowledgement, or nothing. */
    method AnswerPoll(f: Frame) returns (reply: Option<Frame>)
      requires Valid() && f.LostRequest? && Min(f.mtu, mtu) > HEADER
      ensures reply == Reply(Model(), mtu, f)
    {
      var key := Key(f.port, f.id);
      if key !in pending {
        return if key in history then Some(Received(f.port, Swap(f.id))) else None;
      }
      var size := Min(f.mtu, mtu) - HEADER;
      var p := pending[key];
      assert Table()[key] == p.Model();
      var lost := p.Lost(size);
      reply := Some(LostResponse(f.port, Swap(f.id), lost));
    }

    /** The callback thread takes one node. */
    method RunCallback() returns (h: Handed)
      requires Valid() && queue != []
      modifies this
      ensures Valid() && Repr == old(Repr)
      ensures exists node :: old(queue) == [node] + queue && node.item == h
      ensures Model() == Callback(old(Model()))
    {
      var node := queue[0];
      assert queue == [node] + queue[1..];
      h := node.item;
      queue := queue[1..];
      assert Model() == old(Model()).(queue := old(queue)[1..]);
      if node.pending {
        Forget(h.key);
      }
    }
  }
}
