/**
 * msg_t and content_t as mutable objects.  Every method is proved to do to its message and content
 * block what the corresponding function of module Messages does to one entry of the world.
 */
module MessageObjects {
  import opened Messages

  const COUNTER_MODULUS := 0x1_0000_0000

  const MAX_VSM_SIZE: nat := 33

  /** content_t.  `refcnt` is a 32-bit counter that wraps; `frees` counts deallocations. */
  class Content {
    var size: nat
    var refcnt: int
    var frees: nat

    ghost function View(): Cell reads this {
      Cell(refcnt, frees)
    }

    constructor (size: nat)
      ensures View() == Cell(0, 0) && this.size == size
    {
      this.size := size;
      refcnt := 0;
      frees := 0;
    }

    method Set(n: nat)
      requires n < COUNTER_MODULUS
      modifies this`refcnt
      ensures refcnt == n
    {
      refcnt := n % COUNTER_MODULUS;
    }

    method Add(n: nat)
      requires 0 <= refcnt && refcnt + n < COUNTER_MODULUS
      modifies this`refcnt
      ensures refcnt == old(refcnt) + n
    {
      refcnt := (refcnt + n) % COUNTER_MODULUS;
    }

    /** Returns whether the counter is not zero afterwards. */
    method Sub(n: nat) returns (live: bool)
      requires n <= refcnt < COUNTER_MODULUS
      modifies this`refcnt
      ensures refcnt == old(refcnt) - n && live == (refcnt != 0)
    {
      refcnt := (refcnt - n) % COUNTER_MODULUS;
      live := refcnt != 0;
    }

    method Free()
      modifies this`frees
      ensures frees == old(frees) + 1
    {
      frees := frees + 1;
    }
  }

  type Value = Message<Content>

  class Msg {
    var body: Body<Content>
    var more: bool
    var shared: bool

    function View(): Value reads this {
      Message(body, more, shared)
    }

    /** The content block, if there is one. */
    function Block(): set<Content> reads this {
      if body.Lmsg? || body.Zclmsg? then {body.content} else {}
    }

    constructor ()
      ensures View() == Blank()
    {
      body := Vsm;
      more := false;
      shared := false;
    }

    /** The struct assignment `*this = src`. */
    method Assign(v: Value)
      modifies this
      ensures View() == v
    {
      body, more, shared := v.body, v.more, v.shared;
    }

    method Init()
      modifies this
      ensures View() == Blank()
    {
      body, more, shared := Vsm, false, false;
    }

    method InitSize(size: nat)
      modifies this
      ensures size <= MAX_VSM_SIZE ==> View() == Blank()
      ensures size > MAX_VSM_SIZE ==>
        && body.Lmsg? && fresh(body.content) && View() == Message(Lmsg(body.content), false, false)
        && body.content.View() == Cell(0, 0) && body.content.size == size
    {
      more, shared := false, false;
      if size <= MAX_VSM_SIZE {
        body := Vsm;
      } else {
        var content := new Content(size);
        body := Lmsg(content);
      }
    }

    /** Without a deallocation function the data is constant and needs no content block. */
    method InitData(size: nat, deallocator: bool)
      modifies this
      ensures !deallocator ==> View() == Message(Cmsg, false, false)
      ensures deallocator ==>
        && body.Lmsg? && fresh(body.content) && View() == Message(Lmsg(body.content), false, false)
        && body.content.View() == Cell(0, 0) && body.content.size == size
    {
      more, shared := false, false;
      if !deallocator {
        body := Cmsg;
      } else {
        var content := new Content(size);
        body := Lmsg(content);
      }
    }

    /** The content block is provided by the caller and starts its life here. */
    method InitExternalStorage(content: Content, size: nat)
      modifies this, content
      ensures View() == Message(Zclmsg(content), false, false)
      ensures content.View() == Cell(0, 0) && content.size == size
    {
      more, shared := false, false;
      body := Zclmsg(content);
      content.size, content.refcnt, content.frees := size, 0, 0;
    }

    method Close() returns (rc: int)
      requires Counted(View()) && shared ==> 1 <= body.content.refcnt < COUNTER_MODULUS
      modifies this, Block()
      ensures rc == (if old(body.Closed?) then -1 else 0)
      ensures View() == old(View()).(body := Closed)
      ensures old(Counted(View())) ==>
        var c := old(body.content); c.View() == CloseCell(old(shared), old(c.View()))
    {
      if body.Closed? {
        return -1;
      }
      if body.Lmsg? || body.Zclmsg? {
        var content := body.content;
        var live := false;
        if shared {
          live := content.Sub(1);
        }
        if !live {
          content.Free();
        }
      }
      body := Closed;
      return 0;
    }

    method Move(src: Msg) returns (rc: int)
      requires src != this
      requires Counted(View()) && shared ==> 1 <= body.content.refcnt < COUNTER_MODULUS
      modifies this, src, Block()
      ensures rc == (if old(src.body.Closed? || body.Closed?) then -1 else 0)
      ensures rc == 0 ==> View() == old(src.View()) && src.View() == Blank()
      ensures rc != 0 ==> View() == old(View()) && src.View() == old(src.View())
      ensures rc != 0 ==> forall c | c in old(Block()) :: c.View() == old(c.View())
      ensures rc == 0 && old(Counted(View())) ==>
        var c := old(body.content); c.View() == CloseCell(old(shared), old(c.View()))
    {
      if src.body.Closed? {
        return -1;
      }
      rc := Close();
      if rc < 0 {
        return;
      }
      Assign(src.View());
      src.Init();
    }

    /** One more message on the content of `src`; both are marked as shared. */
    method Copy(src: Msg) returns (rc: int)
      requires src != this
      requires Counted(View()) && shared ==> 1 <= body.content.refcnt < COUNTER_MODULUS
      requires Counted(src.View()) && src.shared ==> 0 <= src.body.content.refcnt < COUNTER_MODULUS - 1
      requires Counted(View()) && Counted(src.View()) && body.content == src.body.content ==> shared
      modifies this, src, Block(), src.Block()
      ensures rc == (if old(src.body.Closed? || body.Closed?) then -1 else 0)
      ensures rc != 0 ==> View() == old(View()) && src.View() == old(src.View())
      ensures rc != 0 ==> forall c | c in old(Block() + src.Block()) :: c.View() == old(c.View())
      ensures rc == 0 ==> View() == src.View()
      ensures rc == 0 ==> src.View() == old(src.View()).(shared := old(src.shared || Counted(src.View())))
      ensures rc == 0 && old(Counted(View())) && old(body.content !in src.Block()) ==>
        var c := old(body.content); c.View() == CloseCell(old(shared), old(c.View()))
      ensures rc == 0 && old(Counted(src.View())) && old(src.body.content !in Block()) ==>
        var c := old(src.body.content); c.View() == ShareCell(old(src.shared), old(c.View()), 1)
      ensures rc == 0 && old(Counted(src.View())) && old(src.body.content in Block()) ==>
        var c := old(src.body.content);
        c.View() == ShareCell(old(src.shared), CloseCell(old(shared), old(c.View())), 1)
    {
      if src.body.Closed? {
        return -1;
      }
      rc := Close();
      if rc < 0 {
        return;
      }
      if src.body.Lmsg? || src.body.Zclmsg? {
        if src.shared {
          src.body.content.Add(1);
        } else {
          src.shared := true;
          src.body.content.Set(2);
        }
      }
      Assign(src.View());
    }

    method AddRefs(refs: nat)
      requires refs + 1 < COUNTER_MODULUS
      requires Counted(View()) && shared ==> 0 <= body.content.refcnt && body.content.refcnt + refs < COUNTER_MODULUS
      modifies this`shared, Block()
      ensures View() == old(View()).(shared := old(shared || (refs > 0 && Counted(View()))))
      ensures Counted(View()) ==>
        var was := old(body.content.View());
        body.content.View() == if refs == 0 then was else ShareCell(old(shared), was, refs)
    {
      if refs == 0 {
        return;
      }
      if body.Lmsg? || body.Zclmsg? {
        if shared {
          body.content.Add(refs);
        } else {
          body.content.Set(refs + 1);
          shared := true;
        }
      }
    }

    /** Returns false when the message has been closed or its content freed. */
    method RmRefs(refs: nat) returns (live: bool)
      requires Counted(View()) && shared ==> refs <= body.content.refcnt < COUNTER_MODULUS
      modifies this, Block()
      ensures live == (refs == 0 || (old(Counted(View()) && shared) && old(body.content.refcnt) != refs))
      ensures View() == if refs == 0 || old(Counted(View()) && shared) then old(View())
                        else old(View()).(body := Closed)
      ensures old(Counted(View())) ==>
        var c := old(body.content);
        c.View() == if refs == 0 then old(c.View())
                    else if old(shared) then Drop(old(c.View()), refs)
                    else CloseCell(false, old(c.View()))
    {
      if refs == 0 {
        return true;
      }
      if (!body.Zclmsg? && !body.Lmsg?) || !shared {
        var _ := Close();
        return false;
      }
      live := body.content.Sub(refs);
      if !live {
        body.content.Free();
      }
    }
  }
}
