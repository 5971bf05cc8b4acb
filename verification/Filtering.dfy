/** What solo, mute and the sysex switch keep back, written out byte by byte. */
module Filtering {
  import opened Common
  import opened Elements
  import opened Timeline
  import opened Protocol

  /** The messages whose bytes pass a test, in order. */
  function Where(es: seq<Emit>, keep: Bytes -> bool): seq<Emit> {
    if es == [] then [] else
    Where(es[..|es| - 1], keep) + (if keep(es[|es| - 1].data) then [es[|es| - 1]] else [])
  }

  function Stamped(events: seq<Event>, time: nat): (r: seq<Emit>)
    ensures |r| == |events| && forall i :: 0 <= i < |r| ==> r[i] == Emit(time, events[i].data)
  {
    seq(|events|, i requires 0 <= i < |events| => Emit(time, events[i].data))
  }

  /** All that is placed in frames lo to hi-1, filtered or not, frame by frame, with offsets counted from `base`. */
  function Everything(stream: seq<Placed>, base: nat, lo: nat, hi: nat): seq<Emit>
    requires base <= lo
    decreases hi
  {
    if hi <= lo then []
    else Everything(stream, base, lo, hi - 1) + Stamped(EventsAt(stream, hi - 1), hi - 1 - base)
  }

  lemma {:induction false} WhereConcat(a: seq<Emit>, b: seq<Emit>, keep: Bytes -> bool)
    ensures Where(a + b, keep) == Where(a, keep) + Where(b, keep)
  {
    if b == [] {
      assert a + b == a;
    } else {
      WhereConcat(a, b[..|b| - 1], keep);
      assert (a + b)[..|a + b| - 1] == a + b[..|b| - 1];
    }
  }

  lemma {:induction false} WhereTwice(es: seq<Emit>, first: Bytes -> bool, second: Bytes -> bool, both: Bytes -> bool)
    requires forall i :: 0 <= i < |es| ==> (both(es[i].data) <==> first(es[i].data) && second(es[i].data))
    ensures Where(Where(es, first), second) == Where(es, both)
  {
    if es != [] {
      var front, last := es[..|es| - 1], es[|es| - 1];
      assert forall i :: 0 <= i < |front| ==> front[i] == es[i];
      WhereTwice(front, first, second, both);
      assert both(last.data) <==> first(last.data) && second(last.data);
      if first(last.data) {
        var kept := Where(front, first);
        assert (kept + [last])[..|kept|] == kept;
      } else {
        assert Where(front, first) + [] == Where(front, first);
      }
    }
  }

  lemma {:induction false} SentWhere(f: Filters, events: seq<Event>, time: nat, keep: Bytes -> bool)
    requires forall d: MidiData :: Audible(f, d) <==> keep(d)
    ensures Sent(f, events, time) == Where(Stamped(events, time), keep)
  {
    hide Audible;
    if events != [] {
      var front := events[..|events| - 1];
      SentWhere(f, front, time, keep);
      assert Stamped(events, time)[..|events| - 1] == Stamped(front, time);
    }
  }

  lemma {:induction false} WindowWhere(stream: seq<Placed>, f: Filters, base: nat, lo: nat, hi: nat, keep: Bytes -> bool)
    requires base <= lo && forall d: MidiData :: Audible(f, d) <==> keep(d)
    ensures Window(stream, f, base, lo, hi) == Where(Everything(stream, base, lo, hi), keep)
    decreases hi
  {
    hide Audible, Sent, EventsAt;
    if lo < hi {
      WindowWhere(stream, f, base, lo, hi - 1, keep);
      SentWhere(f, EventsAt(stream, hi - 1), hi - 1 - base, keep);
      WhereConcat(Everything(stream, base, lo, hi - 1), Stamped(EventsAt(stream, hi - 1), hi - 1 - base), keep);
    }
  }

  lemma {:induction false} EverythingHasBytes(stream: seq<Placed>, base: nat, lo: nat, hi: nat)
    requires base <= lo
    ensures forall i :: 0 <= i < |Everything(stream, base, lo, hi)| ==> |Everything(stream, base, lo, hi)[i].data| > 0
    decreases hi
  {
    hide EventsAt;
    if lo < hi {
      EverythingHasBytes(stream, base, lo, hi - 1);
    }
  }

  // ----- the filters

  /** What a message has to be to go out: a sysex when the switch is on, or a message of a channel that is neither muted nor
      soloed away, and not a note-off of channel index 9. */
  lemma AudibleWritten(f: Filters, d: MidiData)
    requires |f.muted| == 16
    ensures Audible(f, d) <==>
              if d[0] == 0xF0 then f.sendSysex
              else (f.solo == -1 || d[0] % 16 == f.solo) && !f.muted[d[0] % 16] && d[0] != 0x89
  {
  }

  /** The window of any filter settings: of everything placed in its frames, exactly the sysex messages if the switch is on,
      and exactly the messages of channels not muted and not soloed away, less the note-offs of channel index 9. */
  lemma WindowWritten(stream: seq<Placed>, f: Filters, base: nat, lo: nat, hi: nat)
    requires base <= lo && |f.muted| == 16
    ensures Window(stream, f, base, lo, hi) ==
            Where(Everything(stream, base, lo, hi), (d: Bytes) =>
              |d| > 0 && if d[0] == 0xF0 then f.sendSysex
                         else (f.solo == -1 || d[0] % 16 == f.solo) && !f.muted[d[0] % 16] && d[0] != 0x89)
  {
    hide Audible;
    var keep := (d: Bytes) =>
      |d| > 0 && if d[0] == 0xF0 then f.sendSysex
                 else (f.solo == -1 || d[0] % 16 == f.solo) && !f.muted[d[0] % 16] && d[0] != 0x89;
    forall d: MidiData ensures Audible(f, d) <==> keep(d) {
      AudibleWritten(f, d);
    }
    WindowWhere(stream, f, base, lo, hi, keep);
  }

  /** The same against the window with open filters. */
  lemma FilteredWindow(stream: seq<Placed>, f: Filters, base: nat, lo: nat, hi: nat, keep: Bytes -> bool)
    requires base <= lo && |f.muted| == 16
    requires forall d: MidiData ::
               keep(d) <==> if d[0] == 0xF0 then f.sendSysex else (f.solo == -1 || d[0] % 16 == f.solo) && !f.muted[d[0] % 16]
    ensures Window(stream, f, base, lo, hi) == Where(Window(stream, AllOpen(), base, lo, hi), keep)
  {
    hide Audible;
    var open := (d: Bytes) => |d| > 0 && d[0] != 0x89;
    var both := (d: Bytes) => |d| > 0 && d[0] != 0x89 && keep(d);
    forall d: MidiData ensures (Audible(AllOpen(), d) <==> open(d)) && (Audible(f, d) <==> both(d)) {
      AudibleWritten(AllOpen(), d);
      AudibleWritten(f, d);
    }
    WindowWhere(stream, AllOpen(), base, lo, hi, open);
    WindowWhere(stream, f, base, lo, hi, both);
    EverythingHasBytes(stream, base, lo, hi);
    WhereTwice(Everything(stream, base, lo, hi), open, keep, both);
  }

  /** Solo keeps the system exclusives and the soloed channel, and nothing else. */
  lemma SoloWindow(stream: seq<Placed>, k: nat, base: nat, lo: nat, hi: nat)
    requires base <= lo && k < 16
    ensures Window(stream, AllOpen().(solo := k), base, lo, hi) ==
            Where(Window(stream, AllOpen(), base, lo, hi), (d: Bytes) => |d| > 0 && (d[0] == 0xF0 || d[0] % 16 == k))
  {
    FilteredWindow(stream, AllOpen().(solo := k), base, lo, hi, (d: Bytes) => |d| > 0 && (d[0] == 0xF0 || d[0] % 16 == k));
  }

  /** Muting keeps back exactly the muted channels. */
  lemma MutedWindow(stream: seq<Placed>, muted: seq<bool>, base: nat, lo: nat, hi: nat)
    requires base <= lo && |muted| == 16
    ensures Window(stream, AllOpen().(muted := muted), base, lo, hi) ==
            Where(Window(stream, AllOpen(), base, lo, hi), (d: Bytes) => |d| > 0 && (d[0] == 0xF0 || !muted[d[0] % 16]))
  {
    FilteredWindow(stream, AllOpen().(muted := muted), base, lo, hi, (d: Bytes) => |d| > 0 && (d[0] == 0xF0 || !muted[d[0] % 16]));
  }

  /** The switch keeps back exactly the system exclusives. */
  lemma NoSysexWindow(stream: seq<Placed>, base: nat, lo: nat, hi: nat)
    requires base <= lo
    ensures Window(stream, AllOpen().(sendSysex := false), base, lo, hi) ==
            Where(Window(stream, AllOpen(), base, lo, hi), (d: Bytes) => |d| > 0 && d[0] != 0xF0)
  {
    FilteredWindow(stream, AllOpen().(sendSysex := false), base, lo, hi, (d: Bytes) => |d| > 0 && d[0] != 0xF0);
  }

  // ----- the commands

  /** After `solo k+1` the window is that of channel index k and the system exclusives. */
  lemma AfterSolo(stream: seq<Placed>, k: nat, base: nat, lo: nat, hi: nat)
    requires base <= lo && k < 15
    ensures Window(stream, Effect(AllOpen(), Solo(k + 1)), base, lo, hi) ==
            Where(Window(stream, AllOpen(), base, lo, hi), (d: Bytes) => |d| > 0 && (d[0] == 0xF0 || d[0] % 16 == k))
    ensures Effect(Effect(AllOpen(), Solo(k + 1)), Solo(0)) == AllOpen()
  {
    hide Window;
    SoloWindow(stream, k, base, lo, hi);
  }

  /** After `mute k+1` the window lacks exactly channel index k; `unmute k+1` brings it back. */
  lemma AfterMute(stream: seq<Placed>, k: nat, base: nat, lo: nat, hi: nat)
    requires base <= lo && k < 15
    ensures Window(stream, Effect(AllOpen(), Mute(k + 1)), base, lo, hi) ==
            Where(Window(stream, AllOpen(), base, lo, hi), (d: Bytes) => |d| > 0 && (d[0] == 0xF0 || d[0] % 16 != k))
    ensures Effect(Effect(AllOpen(), Mute(k + 1)), Unmute(k + 1)) == AllOpen()
  {
    hide Window;
    var f := Effect(AllOpen(), Mute(k + 1));
    FilteredWindow(stream, f, base, lo, hi, (d: Bytes) => |d| > 0 && (d[0] == 0xF0 || d[0] % 16 != k));
    assert AllOpen().muted[k := true][k := false] == AllOpen().muted;
  }

  /** Commands add up: after any of them each channel's flag is as last set, and 16 sets nothing. */
  lemma EffectWritten(f: Filters, c: Command)
    requires |f.muted| == 16
    ensures var r := Effect(f, c);
            |r.muted| == 16 && r.sendSysex == f.sendSysex &&
            r.solo == (if c.Solo? && 0 <= c.arg < 16 then c.arg - 1 else f.solo) &&
            forall i :: 0 <= i < 16 ==>
              r.muted[i] == if c.Mute? && c.arg == i + 1 && i < 15 then true
                            else if c.Unmute? && c.arg == i + 1 && i < 15 then false else f.muted[i]
  {
  }
}
