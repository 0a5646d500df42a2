/** `MainWindow` of lib/GUI_objects/MainWindow.py: the login form, the image
    window and the pulse application, wired together. A 30-second timer shows
    ten relaxing images and then ten disturbing ones; the S key starts a
    measurement and a new timer; the form's Ok button hands the session data
    to the application. */
module Window {
  import opened Builtins
  import opened LoginRules
  import opened SessionData
  import opened Images
  import opened Pulse
  import GuiForm

  /** `x = 30000`: the stimulus interval in milliseconds. */
  const TimerInterval: nat := 30000
  /** Ticks that show relaxing images before the disturbing ones start. */
  const RelaxingTicks: nat := 10
  /** The counter value of the tick that kills the timer. */
  const LastTick: nat := 19

  datatype Category = Relaxing | Disturbing

  /** The category a tick shows when the counter is `c`. */
  function TickCategory(c: int): Category {
    if c < RelaxingTicks then Relaxing else Disturbing
  }

  /** The counter after a tick: reset to 0 on the last tick, then one added. */
  function NextCounter(c: int): (n: int)
    ensures c == LastTick ==> n == 1
    ensures c != LastTick ==> n == c + 1
  {
    (if c == LastTick then 0 else c) + 1
  }

  /** The counter after `n` successful ticks from `c`. */
  function CounterAfter(c: int, n: nat): int
    decreases n
  {
    if n == 0 then c else CounterAfter(NextCounter(c), n - 1)
  }

  /** The categories shown by `n` successful ticks from `c`, in order. */
  function Schedule(c: int, n: nat): (s: seq<Category>)
    ensures |s| == n
    decreases n
  {
    if n == 0 then [] else [TickCategory(c)] + Schedule(NextCounter(c), n - 1)
  }

  /** A timer started with the counter at `c` (`0 <= c < 20`) lives for
      `20 - c` ticks: the relaxing images still due, then the disturbing ones;
      only the last of those ticks kills it, and the counter is left at 1. */
  lemma {:induction false} TimerLifetime(c: nat)
    requires c <= LastTick
    ensures Schedule(c, LastTick + 1 - c) ==
      seq(if c < RelaxingTicks then RelaxingTicks - c else 0, _ => Relaxing) +
      seq(if c < RelaxingTicks then RelaxingTicks else LastTick + 1 - c, _ => Disturbing)
    ensures forall k :: 0 <= k < LastTick - c ==> CounterAfter(c, k) != LastTick
    ensures CounterAfter(c, LastTick - c) == LastTick
    ensures CounterAfter(c, LastTick + 1 - c) == 1
    decreases LastTick - c
  {
    if c < LastTick {
      TimerLifetime(c + 1);
      assert Schedule(c, LastTick + 1 - c) == [TickCategory(c)] + Schedule(c + 1, LastTick - c);
      assert forall k :: 0 < k < LastTick - c ==> CounterAfter(c, k) == CounterAfter(c + 1, k - 1);
      assert CounterAfter(c, LastTick - c) == CounterAfter(c + 1, LastTick - c - 1);
      assert CounterAfter(c, LastTick + 1 - c) == CounterAfter(c + 1, LastTick - c);
      if c < RelaxingTicks {
        assert [Relaxing] + seq(RelaxingTicks - (c + 1), _ => Relaxing) == seq(RelaxingTicks - c, _ => Relaxing);
      }
    } else {
      assert Schedule(c, 1) == [Disturbing];
    }
  }

  /** From a fresh window: ten relaxing shows, ten disturbing shows, the
      twentieth tick kills the timer and the counter ends at 1. */
  lemma FirstRun()
    ensures Schedule(0, 20) == seq(10, _ => Relaxing) + seq(10, _ => Disturbing)
    ensures forall k :: 0 <= k < 19 ==> CounterAfter(0, k) != LastTick
    ensures CounterAfter(0, 20) == 1
  {
    TimerLifetime(0);
  }

  /** Because the counter lands on 1 and the S key does not reset it, a second
      timer shows only nine relaxing images before the ten disturbing ones. */
  lemma SecondRun()
    ensures Schedule(1, 19) == seq(9, _ => Relaxing) + seq(10, _ => Disturbing)
    ensures CounterAfter(1, 19) == 1
  {
    TimerLifetime(1);
  }

  class MainWindow {
    var counter: int
    /** `self.timer_id`: the last timer started. */
    var timerId: Option<int>
    /** The timers Qt is running for the window. */
    var activeTimers: set<int>
    const form: GuiForm.UiForm
    const images: ImageWindow
    /** `camera_label.pulse_detector`. */
    const app: PulseApp

    ghost predicate Valid()
      reads this, form, form.fields, images, app, app.processor
    {
      0 <= counter <= LastTick && form.Valid() && images.Valid() && app.Valid()
    }

    /** `__init__`, with the parts it creates given as arguments. */
    constructor (form: GuiForm.UiForm, images: ImageWindow, app: PulseApp)
      requires form.Valid() && images.Valid() && app.Valid()
      ensures Valid() && counter == 0 && timerId == None && activeTimers == {}
      ensures this.form == form && this.images == images && this.app == app
    {
      counter := 0;
      timerId := None;
      activeTimers := {};
      this.form := form;
      this.images := images;
      this.app := app;
    }

    /** `timerEvent` for a tick of the running timer `id`; `pick` is the
        random choice of the image method. Only a tick of `timer_id` acts:
        it shows an image of `TickCategory(counter)`; a raised error leaves
        at once; otherwise the last tick kills the timer and the counter moves
        to `NextCounter(counter)`. */
    method TimerEvent(id: int, pick: nat) returns (outcome: Outcome)
      requires Valid() && id in activeTimers
      requires var pool := if counter < RelaxingTicks then images.relaxingImages else images.disturbingImages;
        |Available(pool, images.shownImages)| > 0 ==> pick < |Available(pool, images.shownImages)|
      modifies this`counter, this`activeTimers, images`shownImages, images`displayed
      ensures Valid() && timerId == old(timerId)
      ensures timerId != Some(id) ==>
        outcome == Completed && counter == old(counter) && activeTimers == old(activeTimers) &&
        images.shownImages == old(images.shownImages) && images.displayed == old(images.displayed)
      ensures timerId == Some(id) ==>
        (var pool := if TickCategory(old(counter)) == Relaxing then images.relaxingImages else images.disturbingImages;
         var available := Available(pool, old(images.shownImages));
         if available == [] then
           outcome == Raised(FileNotFoundError) && counter == old(counter) && activeTimers == old(activeTimers) &&
           images.shownImages == old(images.shownImages) && images.displayed == old(images.displayed)
         else
           outcome == Completed && counter == NextCounter(old(counter)) &&
           images.shownImages == old(images.shownImages) + [available[pick]] &&
           images.displayed == Some(available[pick]) &&
           activeTimers == if old(counter) == LastTick then old(activeTimers) - {id} else old(activeTimers))
    {
      if timerId != Some(id) {
        return Completed;
      }
      outcome := ShowTick(pick);
      if outcome.Raised? {
        return;
      }
      if counter == LastTick {
        activeTimers := activeTimers - {id};
        counter := 0;
      }
      counter := counter + 1;
    }

    /** Lines 82-85 of `timerEvent`: one image of the category the counter
        selects, or `FileNotFoundError` when none is left to show. */
    method ShowTick(pick: nat) returns (outcome: Outcome)
      requires Valid()
      requires var pool := if counter < RelaxingTicks then images.relaxingImages else images.disturbingImages;
        |Available(pool, images.shownImages)| > 0 ==> pick < |Available(pool, images.shownImages)|
      modifies images`shownImages, images`displayed
      ensures Valid()
      ensures var pool := if TickCategory(counter) == Relaxing then images.relaxingImages else images.disturbingImages;
        var available := Available(pool, old(images.shownImages));
        if available == [] then
          outcome == Raised(FileNotFoundError) &&
          images.shownImages == old(images.shownImages) && images.displayed == old(images.displayed)
        else
          outcome == Completed &&
          images.shownImages == old(images.shownImages) + [available[pick]] && images.displayed == Some(available[pick])
    {
      if counter < RelaxingTicks {
        outcome := images.ShowRelaxingImage(pick);
      } else {
        outcome := images.ShowDisturbingImage(pick);
      }
    }

    /** The S branch of `keyPressEvent`: toggle the search (which raises
        before `setAppData`), restart the list of shown images and start a
        new timer `newTimer`. The counter is left alone and the previous timer
        is not killed. */
    method KeyS(newTimer: int, now: int) returns (outcome: Outcome)
      requires Valid() && newTimer !in activeTimers
      modifies app.processor`findFaces, app.processor`startTime, app.processor`endTime, app.processor`data,
        app.processor`heartRates, app.processor`counter, app.processor`isSuccess,
        images`shownImages, this`timerId, this`activeTimers
      ensures Valid() && counter == old(counter)
      ensures app.data.None? ==>
        outcome == Raised(AttributeError) && unchanged(app.processor) &&
        images.shownImages == old(images.shownImages) && timerId == old(timerId) && activeTimers == old(activeTimers)
      ensures app.data.Some? ==>
        outcome == Completed && images.shownImages == [] && timerId == Some(newTimer) &&
        activeTimers == old(activeTimers) + {newTimer}
      // What `toggle_search` did to the processor.
      ensures app.data.Some? ==>
        var p := app.processor;
        p.findFaces == !old(p.findFaces) && p.startTime == now && p.endTime == app.data.value.recordLength + now &&
        p.data == app.data && p.heartRates == [] &&
        p.counter == old(p.counter) + (if old(p.isSuccess) then 1 else 0) && !p.isSuccess
    {
      outcome := app.ToggleSearch(now);
      if outcome.Raised? {
        return;
      }
      images.RestartShownImages();
      timerId := Some(newTimer);
      activeTimers := activeTimers + {newTimer};
    }

    /** `form_ok_callback` with `reply` the answer of `add_user` and `pick`
        the choice of the first image: only a form that `check_state(None)`
        accepts and for which `set_user` returns true moves on, showing a
        relaxing image first and then handing the session data to the
        application (`open_camera` calls `setAppData`). */
    method FormOkCallback(reply: GuiForm.AddUserReply, pick: nat) returns (outcome: Outcome)
      requires Valid()
      requires |Available(images.relaxingImages, images.shownImages)| > 0 ==>
        pick < |Available(images.relaxingImages, images.shownImages)|
      modifies form.fields`flags, form.fields`style, form`data, images`shownImages, images`displayed,
        app`data, app`avgData
      ensures Valid()
      ensures form.fields.flags == old(form.fields.flags) && form.fields.style == old(form.fields.style)
      ensures !AllSet(form.fields.flags) || !reply.isSuccess || reply.data.None? ==>
        outcome == Completed && form.data == old(form.data) && images.shownImages == old(images.shownImages) &&
        images.displayed == old(images.displayed) && app.data == old(app.data) && app.avgData == old(app.avgData)
      ensures AllSet(form.fields.flags) && reply.isSuccess && reply.data.Some? ==>
        form.data == GuiForm.Complete(SessionData(reply.data.value, IntOf(form.fields.texts[RecordLength]),
                                                  IntOf(form.fields.texts[RecordNum])))
      ensures (AllSet(form.fields.flags) && reply.isSuccess && reply.data.Some? &&
               Available(images.relaxingImages, old(images.shownImages)) == []) ==>
        outcome == Raised(FileNotFoundError) && images.shownImages == old(images.shownImages) &&
        images.displayed == old(images.displayed) && app.data == old(app.data) && app.avgData == old(app.avgData)
      ensures (AllSet(form.fields.flags) && reply.isSuccess && reply.data.Some? &&
               Available(images.relaxingImages, old(images.shownImages)) != []) ==>
        outcome == Completed &&
        images.shownImages == old(images.shownImages) + [Available(images.relaxingImages, old(images.shownImages))[pick]] &&
        images.displayed == Some(Available(images.relaxingImages, old(images.shownImages))[pick]) &&
        app.data == Some(form.data.session) && app.avgData == []
    {
      var proceed := form.Admit(reply);
      if !proceed {
        return Completed;
      }
      outcome := images.ShowRelaxingImage(pick);
      if outcome.Raised? {
        return;
      }
      app.SetAppData(form.data.session);
    }
  }
}
