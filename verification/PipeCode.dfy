/** The two loops that pipewrite and piperead run under p->lock, on struct pipe itself. */
module PipeCode {
  import opened Common
  import opened SleepWakeup
  import opened SleepInvariant

  class Ring {
    const data: array<Byte>
    var nread: nat
    var nwrite: nat
    /** Every byte put in and every byte taken out. */
    ghost var wrote: seq<Byte>
    ghost var taken: seq<Byte>

    ghost function Value(): Obj
      reads this, data
    {
      Pipe(None, data[..], nread, nwrite, true, true, wrote, taken)
    }

    ghost predicate Valid()
      reads this, data
    {
      data.Length == PIPESIZE && PipeOk(Value())
    }

    /** pipealloc */
    constructor ()
      ensures Valid() && wrote == [] && taken == [] && fresh(data)
    {
      data := new Byte[PIPESIZE];
      nread, nwrite, wrote, taken := 0, 0, [], [];
    }

    /** pipewrite from byte i on, until the pipe is full or all is written: k is how far it got. */
    method Fill(src: seq<Byte>, i: nat) returns (k: nat)
      requires Valid() && i <= |src|
      modifies this`nwrite, this`wrote, data
      ensures Valid() && taken == old(taken) && nread == old(nread)
      ensures i <= k <= |src| && wrote == old(wrote) + src[i..k]
      ensures k == |src| || |wrote| == |taken| + PIPESIZE
    {
      k := i;
      while k < |src|
        invariant Valid() && i <= k <= |src| && wrote == old(wrote) + src[i..k] && taken == old(taken)
        invariant nread == old(nread)
      {
        FullMeans(Value());
        if nwrite == (nread + PIPESIZE) % UINT {
          return;
        }
        ghost var before := Value();
        PutKeeps(before, src[k]);
        data[nwrite % PIPESIZE] := src[k];
        nwrite := (nwrite + 1) % UINT;
        wrote := wrote + [src[k]];
        assert Value() == Put(before, src[k]);
        k := k + 1;
      }
    }

    /** piperead's copy loop: as many bytes as asked for and there are, oldest first. */
    method Drain(n: nat) returns (got: seq<Byte>)
      requires Valid()
      modifies this`nread, this`taken
      ensures Valid() && wrote == old(wrote) && nwrite == old(nwrite) && data[..] == old(data[..])
      ensures taken == old(taken) + got && taken <= wrote
      ensures |got| == if n <= |wrote| - |old(taken)| then n else |wrote| - |old(taken)|
    {
      got := [];
      while |got| < n
        invariant Valid() && wrote == old(wrote) && nwrite == old(nwrite) && data[..] == old(data[..])
        invariant |got| <= n && taken == old(taken) + got
      {
        FullMeans(Value());
        if nread == nwrite {
          return;
        }
        ghost var before := Value();
        TakeKeeps(before);
        got := got + [data[nread % PIPESIZE]];
        taken := taken + [data[nread % PIPESIZE]];
        nread := (nread + 1) % UINT;
        assert Value() == Take(before);
      }
    }
  }
}
