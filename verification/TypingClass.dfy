/** TypingState as the object it is: an atomic counter and a one-slot channel. */
module TypingClass {
  import T = Typing

  class TypingState {
    var posting: int
    /** The tokens in resume, a channel with room for one. */
    var resume: seq<()>

    constructor ()
      ensures Valid() && View() == T.NEW
    {
      posting, resume := 0, [];
    }

    predicate Valid()
      reads this`resume
    {
      |resume| <= 1
    }

    function View(): T.Signal
      reads this
    {
      T.Signal(posting, resume != [])
    }

    method BeginPost()
      requires Valid()
      modifies this`posting
      ensures View() == T.Begin(old(View()))
    {
      posting := posting + 1;
    }

    /** The atomic decrement of EndPost; last says whether it reached zero. */
    method Decrement() returns (last: bool)
      modifies this`posting
      ensures View() == T.Decrement(old(View())) && last == (View().posting == 0)
    {
      posting := posting - 1;
      last := posting == 0;
    }

    /** The select with a default: it never waits, and never overfills the channel. */
    method Nudge()
      requires Valid()
      modifies this`resume
      ensures Valid() && View() == T.Nudge(old(View()))
    {
      if |resume| < 1 {
        resume := resume + [()];
      }
    }

    /** EndPost with nothing in between: both steps of the protocol. */
    method EndPost()
      requires Valid()
      modifies this
      ensures Valid()
      ensures var g := T.Decrement(old(View())); View() == if g.posting == 0 then T.Nudge(g) else g
    {
      var last := Decrement();
      if last {
        Nudge();
      }
    }

    method Idle() returns (idle: bool)
      ensures idle <==> View().posting == 0
    {
      idle := posting == 0;
    }
  }
}
