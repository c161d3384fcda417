/**
 The observation history a policy is fed: one flat buffer of the last frames, shifted in place.
 One kind of policy is fed before the shift, the other after it.
 */
module ObsWindow {

  /** Frames end to end. */
  function Flat(frames: seq<seq<real>>): seq<real> {
    if frames == [] then [] else frames[0] + Flat(frames[1..])
  }

  ghost predicate Framed(frames: seq<seq<real>>, size: nat) {
    forall k :: 0 <= k < |frames| ==> |frames[k]| == size
  }

  function Last(frames: seq<seq<real>>, n: nat): seq<seq<real>>
    requires n <= |frames|
  {
    frames[|frames| - n..]
  }

  function Copies(frame: seq<real>, n: nat): seq<seq<real>> {
    seq(n, i => frame)
  }

  lemma {:induction false} FlatAppends(a: seq<seq<real>>, b: seq<seq<real>>)
    ensures Flat(a + b) == Flat(a) + Flat(b)
  {
    if a == [] {
      assert a + b == b;
    } else {
      assert (a + b)[1..] == a[1..] + b;
      FlatAppends(a[1..], b);
    }
  }

  lemma FlatOne(frame: seq<real>)
    ensures Flat([frame]) == frame
  {
    assert [frame][1..] == [];
  }

  function Cells(frames: nat, size: nat): nat {
    frames * size
  }

  lemma CellsStep(frames: nat, size: nat)
    ensures Cells(frames + 1, size) == Cells(frames, size) + size && Cells(0, size) == 0
  {
  }

  lemma {:induction false} CellsGrow(n: nat, frames: nat, size: nat)
    requires n <= frames
    ensures Cells(n, size) <= Cells(frames, size)
  {
    if n < frames {
      CellsStep(frames - 1, size);
      CellsGrow(n, frames - 1, size);
    }
  }

  /** Dropping one frame and appending another is what a shift by one frame does to the flat buffer. */
  lemma ShiftIsSlide(seen: seq<seq<real>>, n: nat, obs: seq<real>)
    requires 1 <= n <= |seen|
    ensures Flat(Last(seen + [obs], n)) == Flat(Last(seen, n))[|Last(seen, n)[0]|..] + obs
  {
    var w := Last(seen, n);
    assert Last(seen + [obs], n) == w[1..] + [obs];
    FlatAppends(w[1..], [obs]);
    FlatOne(obs);
  }

  class ObsHistory {
    const size: nat
    const frames: nat
    const data: array<real>
    /** Every frame since the mode was last entered, the entry's own copies first. */
    ghost var seen: seq<seq<real>>

    ghost predicate Valid() reads this, data {
      frames >= 1 && data.Length == Cells(frames, size) && Framed(seen, size) && frames <= |seen|
      && data[..] == Flat(Last(seen, frames))
    }

    constructor (size: nat, frames: nat)
      requires frames >= 1
      ensures Valid() && fresh(data) && this.size == size && this.frames == frames
      ensures seen == Copies(seq(size, i => 0.0), frames)
    {
      this.size, this.frames := size, frames;
      data := new real[Cells(frames, size)];
      seen := [];
      new;
      Enter(seq(size, i => 0.0));
    }

    /** On entry every frame becomes the entry's observation. */
    method Enter(obs: seq<real>)
      requires data.Length == Cells(frames, size) && frames >= 1 && |obs| == size
      modifies this`seen, data
      ensures Valid() && seen == Copies(obs, frames)
    {
      hide Cells;
      CellsStep(0, size);
      for i := 0 to frames
        invariant Cells(i, size) <= data.Length && data[..Cells(i, size)] == Flat(Copies(obs, i))
      {
        CellsStep(i, size);
        CellsGrow(i + 1, frames, size);
        var at := Cells(i, size);
        ghost var done := data[..at];
        for c := 0 to size
          invariant data[..at + c] == done + obs[..c]
        {
          data[at + c] := obs[c];
          assert data[..at + c + 1] == data[..at + c] + [obs[c]];
        }
        assert Copies(obs, i + 1) == Copies(obs, i) + [obs] && obs[..size] == obs;
        FlatAppends(Copies(obs, i), [obs]);
        FlatOne(obs);
      }
      seen := Copies(obs, frames);
      assert Last(seen, frames) == seen && data[..] == data[..data.Length];
    }

    /** The overlapping copy, lowest element first, then the new frame at the end. */
    method Shift(obs: seq<real>)
      requires Valid() && |obs| == size
      modifies this`seen, data
      ensures Valid() && seen == old(seen) + [obs]
    {
      hide Cells, Flat;
      ghost var was := data[..];
      CellsStep(frames - 1, size);
      var kept := data.Length - size;
      for i := 0 to kept
        invariant seen == old(seen)
        invariant forall k :: 0 <= k < i ==> data[k] == was[k + size]
        invariant forall k :: i <= k < data.Length ==> data[k] == was[k]
      {
        data[i] := data[i + size];
      }
      for k := 0 to size
        invariant seen == old(seen)
        invariant forall j :: 0 <= j < kept ==> data[j] == was[j + size]
        invariant forall j :: 0 <= j < k ==> data[kept + j] == obs[j]
      {
        data[kept + k] := obs[k];
      }
      assert data[..] == was[size..] + obs;
      ShiftIsSlide(seen, frames, obs);
      seen := seen + [obs];
    }

    /** An np3o policy is fed the current frame and, apart from it, the frames before it. */
    method ForwardNp3o(obs: seq<real>, useHistory: bool) returns (inputs: seq<seq<real>>)
      requires Valid() && |obs| == size
      modifies this`seen, data
      ensures Valid() && seen == old(seen) + [obs]
      ensures inputs == if useHistory then [obs, Flat(Last(old(seen), frames))] else [obs]
    {
      inputs := [obs];
      if useHistory {
        inputs := inputs + [data[..]];
      }
      Shift(obs);
    }

    /** A ppo policy is fed one vector, the current frame last in it. */
    method ForwardPpo(obs: seq<real>) returns (inputs: seq<seq<real>>)
      requires Valid() && |obs| == size
      modifies this`seen, data
      ensures Valid() && seen == old(seen) + [obs]
      ensures inputs == [Flat(Last(old(seen) + [obs], frames))]
    {
      Shift(obs);
      inputs := [data[..]];
    }

    /** Any number of updates since entry: the window of np3o never holds the current frame, that of ppo always does. */
    method Updates(entry: seq<real>, obs: seq<seq<real>>, ppo: bool) returns (fed: seq<seq<seq<real>>>)
      requires data.Length == Cells(frames, size) && frames >= 1 && |entry| == size && Framed(obs, size)
      modifies this`seen, data
      ensures Valid() && seen == Copies(entry, frames) + obs
      ensures |fed| == |obs| && forall m :: 0 <= m < |obs| ==> fed[m] == Fed(entry, obs, frames, m, ppo)
    {
      hide Flat, Copies, Cells, Last, ObsHistory.Valid;
      Enter(entry);
      fed := [];
      assert seen == Copies(entry, frames) + obs[..0];
      for m := 0 to |obs|
        invariant Valid() && seen == Copies(entry, frames) + obs[..m]
        invariant |fed| == m && forall k :: 0 <= k < m ==> fed[k] == Fed(entry, obs, frames, k, ppo)
      {
        var inputs;
        assert obs[..m] + [obs[m]] == obs[..m + 1];
        assert seen + [obs[m]] == Copies(entry, frames) + obs[..m + 1];
        assert |obs[m]| == size;
        if ppo {
          inputs := ForwardPpo(obs[m]);
        } else {
          inputs := ForwardNp3o(obs[m], true);
        }
        fed := fed + [inputs];
      }
      assert obs[..|obs|] == obs;
    }
  }

  /** What update m since entry feeds its policy. */
  function Fed(entry: seq<real>, obs: seq<seq<real>>, frames: nat, m: nat, ppo: bool): seq<seq<real>>
    requires m < |obs|
  {
    if ppo then [Flat(Last(Copies(entry, frames) + obs[..m + 1], frames))]
    else [obs[m], Flat(Last(Copies(entry, frames) + obs[..m], frames))]
  }

  /** Frame j of a window after m updates: the observation frames - j updates back, or the entry's. */
  lemma WindowFrame(entry: seq<real>, obs: seq<seq<real>>, frames: nat, m: nat, j: nat)
    requires m <= |obs| && j < frames
    ensures Last(Copies(entry, frames) + obs[..m], frames)[j] == if j + m < frames then entry else obs[j + m - frames]
  {
  }

  lemma {:induction false} FlatLength(frames: seq<seq<real>>, size: nat)
    requires Framed(frames, size)
    ensures |Flat(frames)| == Cells(|frames|, size)
  {
    if frames != [] {
      FlatLength(frames[1..], size);
      CellsStep(|frames| - 1, size);
    } else {
      CellsStep(0, size);
    }
  }

  lemma FlatFrame(frames: seq<seq<real>>, size: nat, j: nat)
    requires Framed(frames, size) && j < |frames|
    ensures Cells(j, size) + size <= |Flat(frames)| == Cells(|frames|, size)
    ensures Flat(frames)[Cells(j, size)..Cells(j, size) + size] == frames[j]
  {
    var (a, b) := (frames[..j], frames[j + 1..]);
    assert frames == a + [frames[j]] + b;
    FlatAppends(a + [frames[j]], b);
    FlatAppends(a, [frames[j]]);
    FlatOne(frames[j]);
    FlatLength(a, size);
    FlatLength(a + [frames[j]], size);
    FlatLength(frames, size);
    CellsStep(j, size);
  }

  /**
   What update m is fed, frame by frame: an np3o policy the current observation, and a window of what came
   before it; a ppo policy one window that ends with it. A window is the latest observations, with the entry
   observation in place of those there were not yet.
   */
  lemma FedFrame(entry: seq<real>, obs: seq<seq<real>>, frames: nat, size: nat, m: nat, j: nat, ppo: bool)
    requires m < |obs| && j < frames && |entry| == size && Framed(obs, size)
    ensures var fed := Fed(entry, obs, frames, m, ppo);
      |fed| == (if ppo then 1 else 2) && (!ppo ==> fed[0] == obs[m])
      && var (window, n) := (fed[|fed| - 1], if ppo then m + 1 else m);
        |window| == Cells(frames, size) && Cells(j, size) + size <= |window|
        && window[Cells(j, size)..Cells(j, size) + size] == if j + n < frames then entry else obs[j + n - frames]
  {
    var n := if ppo then m + 1 else m;
    WindowFrame(entry, obs, frames, n, j);
    FlatFrame(Last(Copies(entry, frames) + obs[..n], frames), size, j);
  }
}
