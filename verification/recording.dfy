/** The recording concatenator: every `*.dat` file of a directory holds a
    header `[width, height]` followed by frames of `width * height * 2`
    values; the files are checked against each other, thinned out to the
    output frame rate by dropping whole frames, and written as one header
    followed by all the bodies. The files arrive as their decoded values,
    in sorted path order; the values themselves are left abstract. */
module Recording {
  import opened Wrappers
  import opened Numeric

  /** Why the script stops. */
  datatype Error =
    | NotAFactor            // ValueError: out_framerate must be a factor of in_framerate
    | TooSmall(count: nat)  // ValueError: data is unreasonably small
    | DimensionMismatch     // ValueError: frame dimension mismatch detected
    | ZeroDivision          // ZeroDivisionError: a zero rate, frame size or rate ratio

  datatype Result<T> = Ok(value: T) | Err(error: Error)

  /** A frame size as the header gives it, truncated to integers. */
  datatype Dims = Dims(width: int, height: int)

  /** The number of values in a frame of size `d`: two per pixel. */
  function Frame(d: Dims): int {
    d.width * d.height * 2
  }

  // ---------------------------------------------------------------------------
  // The rate check

  /** The frame rates go together when the output rate is at most the input
      rate and divides it. Comparing first, the script divides by a zero
      output rate only when the input rate is not negative. */
  function CheckRates(inRate: int, outRate: int): (r: Option<Error>)
    ensures r.None? <==> outRate <= inRate && outRate != 0 && inRate % outRate == 0
    ensures r == Some(ZeroDivision) <==> outRate == 0 && 0 <= inRate
    ensures r.Some? ==> r == Some(ZeroDivision) || r == Some(NotAFactor)
  {
    if outRate > inRate then Some(NotAFactor)
    else if outRate == 0 then Some(ZeroDivision)
    else if inRate % outRate != 0 then Some(NotAFactor)
    else None
  }

  // ---------------------------------------------------------------------------
  // Dropping frames

  /** Whether the body value at `index` is kept: its frame number,
      `int(index / frame)`, is a multiple of `ratio`. Python's `%` and
      Dafny's differ for a negative `ratio`, but both give 0 exactly for the
      multiples. */
  predicate KeptAt(index: nat, frame: int, ratio: int)
    requires frame != 0 && ratio != 0
  {
    FrameNumber(index, frame) % ratio == 0
  }

  /** `int(index / frame)` for an index, which is never negative: the
      quotient truncated toward zero. */
  function FrameNumber(index: nat, frame: int): int
    requires frame != 0
  {
    if frame > 0 then index / frame else -(index / -frame)
  }

  /** The values among the first `n` of `body` that are kept, in order. */
  function Keep(body: seq<real>, frame: int, ratio: int, n: nat): seq<real>
    requires frame != 0 && ratio != 0 && n <= |body|
  {
    if n == 0 then []
    else Keep(body, frame, ratio, n - 1) + (if KeptAt(n - 1, frame, ratio) then [body[n - 1]] else [])
  }

  /** The list comprehension that thins a body out. */
  function Decimate(body: seq<real>, frame: int, ratio: int): seq<real>
    requires frame != 0 && ratio != 0
  {
    Keep(body, frame, ratio, |body|)
  }

  /** The first `m` whole frames of `body`, each kept when its number is a
      multiple of `ratio`: the independent description of thinning out. */
  function KeptFrames(body: seq<real>, frame: int, ratio: int, m: nat): seq<real>
    requires frame > 0 && ratio != 0 && m * frame <= |body|
  {
    if m == 0 then []
    else
      assert (m - 1) * frame == m * frame - frame;
      KeptFrames(body, frame, ratio, m - 1) + (if (m - 1) % ratio == 0 then body[(m - 1) * frame..m * frame] else [])
  }

  /** Integer division is determined by the bounds of the quotient. */
  lemma DivUnique(a: int, b: int, q: int)
    requires b > 0 && q * b <= a < q * b + b
    ensures a / b == q
  {
    var q' := a / b;
    assert q' * b <= a < q' * b + b;
    assert (q' - q) * b == q' * b - q * b;
    SmallMultiple(q' - q, b);
  }

  /** The only multiple of `b` strictly between `-b` and `b` is zero. */
  lemma SmallMultiple(x: int, b: int)
    requires b > 0 && -b < x * b < b
    ensures x == 0
  {
  }

  /** A value at offset `j` of frame `m`, which starts at `start`, belongs
      to frame `m`, and is kept exactly when that frame is. */
  lemma FrameOf(m: nat, start: nat, j: nat, frame: int, ratio: int)
    requires frame > 0 && ratio != 0 && start == m * frame && j < frame
    ensures FrameNumber(start + j, frame) == m
    ensures KeptAt(start + j, frame, ratio) <==> m % ratio == 0
  {
    DivUnique(start + j, frame, m);
  }

  /** Thinning out up to offset `j` of frame `m`, which starts at `start`,
      gives the kept whole frames before it and, when frame `m` is kept,
      its first `j` values. */
  lemma {:induction false} KeepFrames(body: seq<real>, frame: int, ratio: int, m: nat, start: nat, j: nat)
    requires frame > 0 && ratio != 0 && start == m * frame && j <= frame && start + j <= |body|
    ensures Keep(body, frame, ratio, start + j) ==
      KeptFrames(body, frame, ratio, m) + (if m % ratio == 0 then body[start..start + j] else [])
    decreases m, j
  {
    if j == 0 {
      if m > 0 {
        assert (m - 1) * frame == start - frame;
        KeepFrames(body, frame, ratio, m - 1, start - frame, frame);
        FrameClosed(body, frame, ratio, m, start);
      }
    } else {
      KeepFrames(body, frame, ratio, m, start, j - 1);
      FrameOf(m, start, j - 1, frame, ratio);
      FrameGrows(body, frame, ratio, m, start, j);
    }
  }

  /** The last step of a frame: once all of frame `m - 1` is thinned out,
      the kept whole frames are the first `m`. */
  lemma FrameClosed(body: seq<real>, frame: int, ratio: int, m: nat, start: nat)
    requires frame > 0 && ratio != 0 && m > 0 && start == m * frame && start <= |body|
    requires (m - 1) * frame == start - frame
    requires Keep(body, frame, ratio, start) ==
      KeptFrames(body, frame, ratio, m - 1) + (if (m - 1) % ratio == 0 then body[start - frame..start] else [])
    ensures Keep(body, frame, ratio, start) == KeptFrames(body, frame, ratio, m)
  {
  }

  /** One more value of frame `m`: it is kept exactly when the frame is. */
  lemma FrameGrows(body: seq<real>, frame: int, ratio: int, m: nat, start: nat, j: nat)
    requires frame > 0 && ratio != 0 && start == m * frame && 0 < j <= frame && start + j <= |body|
    requires Keep(body, frame, ratio, start + j - 1) ==
      KeptFrames(body, frame, ratio, m) + (if m % ratio == 0 then body[start..start + j - 1] else [])
    requires KeptAt(start + j - 1, frame, ratio) <==> m % ratio == 0
    ensures Keep(body, frame, ratio, start + j) ==
      KeptFrames(body, frame, ratio, m) + (if m % ratio == 0 then body[start..start + j] else [])
  {
    if m % ratio == 0 {
      assert body[start..start + j] == body[start..start + j - 1] + [body[start + j - 1]];
    }
  }

  /** Thinning out keeps or drops whole frames, in order: the kept frames,
      then the last partial frame when its number is kept. */
  lemma DecimateFrames(body: seq<real>, frame: int, ratio: int)
    requires frame > 0 && ratio != 0
    ensures (|body| / frame) * frame <= |body|
    ensures Decimate(body, frame, ratio) ==
      KeptFrames(body, frame, ratio, |body| / frame) +
      (if (|body| / frame) % ratio == 0 then body[(|body| / frame) * frame..] else [])
  {
    var m, j := |body| / frame, |body| % frame;
    assert m * frame + j == |body|;
    KeepFrames(body, frame, ratio, m, m * frame, j);
    assert body[m * frame..m * frame + j] == body[m * frame..];
  }

  // ---------------------------------------------------------------------------
  // One file

  /** The header of a file, as the script reads it. */
  function Header(file: seq<real>): Dims
    requires |file| >= 2
  {
    Dims(Trunc(file[0]), Trunc(file[1]))
  }

  /** A file without its header. */
  function Body(file: seq<real>): seq<real> {
    if |file| >= 2 then file[2..] else []
  }

  /** One pass of the file loop, with `dims` the frame size so far (a zero
      width meaning none yet): the size check, the header check or
      adoption, then the body, thinned out when the rates differ. An empty
      body divides by nothing. */
  function Part(file: seq<real>, dims: Dims, inRate: int, outRate: int): Result<(Dims, seq<real>)>
    requires outRate != 0
  {
    if |file| < 2 then Err(TooSmall(|file|))
    else if dims.width != 0 && Header(file) != dims then Err(DimensionMismatch)
    else
      var dims' := if dims.width == 0 then Header(file) else dims;
      var ratio := inRate / outRate;
      if outRate == inRate || Body(file) == [] then Ok((dims', Body(file)))
      else if Frame(dims') == 0 || ratio == 0 then Err(ZeroDivision)
      else Ok((dims', Decimate(Body(file), Frame(dims'), ratio)))
  }

  /** The file loop over the first `n` files: the frame size and all the
      bodies so far, or the first error. */
  function Gather(files: seq<seq<real>>, n: nat, inRate: int, outRate: int): Result<(Dims, seq<real>)>
    requires n <= |files| && outRate != 0
  {
    if n == 0 then Ok((Dims(0, 0), []))
    else
      match Gather(files, n - 1, inRate, outRate)
      case Err(e) => Err(e)
      case Ok((dims, data)) =>
        match Part(files[n - 1], dims, inRate, outRate)
        case Err(e) => Err(e)
        case Ok((dims', body)) => Ok((dims', data + body))
  }

  /** What the script writes: the frame size, then every body. */
  function Output(files: seq<seq<real>>, inRate: int, outRate: int): (r: Result<seq<real>>)
    ensures CheckRates(inRate, outRate).Some? ==> r == Err(CheckRates(inRate, outRate).value)
    ensures r.Ok? ==> CheckRates(inRate, outRate).None? && |r.value| >= 2
  {
    match CheckRates(inRate, outRate)
    case Some(e) => Err(e)
    case None =>
      match Gather(files, |files|, inRate, outRate)
      case Err(e) => Err(e)
      case Ok((dims, data)) => Ok([dims.width as real, dims.height as real] + data)
  }

  /** Once a file fails, the loop goes no further. */
  lemma {:induction false} GatherStops(files: seq<seq<real>>, n: nat, k: nat, inRate: int, outRate: int)
    requires n <= k <= |files| && outRate != 0
    requires Gather(files, n, inRate, outRate).Err?
    ensures Gather(files, k, inRate, outRate) == Gather(files, n, inRate, outRate)
    decreases k
  {
    if k > n {
      GatherStops(files, n, k - 1, inRate, outRate);
    }
  }

  /** The script's `main` over the files: the rate check, then the loop that
      processes each file in turn, then the header and the bodies. */
  method Concatenate(files: seq<seq<real>>, inRate: int, outRate: int) returns (r: Result<seq<real>>)
    ensures r == Output(files, inRate, outRate)
  {
    var rates := CheckRates(inRate, outRate);
    if rates.Some? {
      return Err(rates.value);
    }
    var dims := Dims(0, 0);
    var data: seq<real> := [];
    for i := 0 to |files|
      invariant Gather(files, i, inRate, outRate) == Ok((dims, data))
    {
      var part := Part(files[i], dims, inRate, outRate);
      if part.Err? {
        GatherStops(files, i + 1, |files|, inRate, outRate);
        return Err(part.error);
      }
      dims, data := part.value.0, data + part.value.1;
    }
    r := Ok([dims.width as real, dims.height as real] + data);
  }

  // ---------------------------------------------------------------------------
  // What an accepted run promises

  /** The bodies of the first `n` files, one after the other. */
  function Bodies(files: seq<seq<real>>, n: nat): seq<real>
    requires n <= |files|
  {
    if n == 0 then [] else Bodies(files, n - 1) + Body(files[n - 1])
  }

  /** The bodies of the first `n` files, each thinned out. */
  function Thinned(files: seq<seq<real>>, n: nat, frame: int, ratio: int): seq<real>
    requires n <= |files| && frame != 0 && ratio != 0
  {
    if n == 0 then [] else Thinned(files, n - 1, frame, ratio) + Decimate(Body(files[n - 1]), frame, ratio)
  }

  /** The files the loop accepted: each has a header, and each header with
      a nonzero width is the frame size the loop ends with. */
  lemma {:induction false} GatherHeaders(files: seq<seq<real>>, n: nat, inRate: int, outRate: int)
    requires n <= |files| && outRate != 0
    requires Gather(files, n, inRate, outRate).Ok?
    ensures forall k :: 0 <= k < n ==> |files[k]| >= 2
    ensures forall k :: 0 <= k < n && Header(files[k]).width != 0 ==> Header(files[k]) == Gather(files, n, inRate, outRate).value.0
    decreases n
  {
    if n > 0 {
      GatherHeaders(files, n - 1, inRate, outRate);
    }
  }

  /** With equal rates the bodies pass through unchanged. */
  lemma {:induction false} GatherPassThrough(files: seq<seq<real>>, n: nat, rate: int)
    requires n <= |files| && rate != 0
    requires Gather(files, n, rate, rate).Ok?
    ensures Gather(files, n, rate, rate).value.1 == Bodies(files, n)
    decreases n
  {
    if n > 0 {
      GatherPassThrough(files, n - 1, rate);
    }
  }

  /** Thinning out nothing gives nothing. */
  lemma {:induction false} ThinnedEmpty(files: seq<seq<real>>, n: nat, frame: int, ratio: int)
    requires n <= |files| && frame != 0 && ratio != 0
    requires forall k :: 0 <= k < n ==> Body(files[k]) == []
    ensures Thinned(files, n, frame, ratio) == []
    decreases n
  {
    if n > 0 {
      ThinnedEmpty(files, n - 1, frame, ratio);
      assert Body(files[n - 1]) == [];
      assert Decimate(Body(files[n - 1]), frame, ratio) == [];
    }
  }

  /** The data after `n` files with frame size `dims`, when the rates
      differ: the bodies thinned out with that frame size, or nothing at
      all (every body empty) when the frame size or the ratio is zero. */
  predicate ThinnedSoFar(files: seq<seq<real>>, n: nat, dims: Dims, data: seq<real>, ratio: int)
    requires n <= |files|
  {
    && (Frame(dims) == 0 || ratio == 0 ==> data == [] && forall k :: 0 <= k < n ==> Body(files[k]) == [])
    && (Frame(dims) != 0 && ratio != 0 ==> data == Thinned(files, n, Frame(dims), ratio))
  }

  /** One more accepted file keeps the data thinned out. */
  lemma ThinnedStep(files: seq<seq<real>>, n: nat, dims: Dims, data: seq<real>, inRate: int, outRate: int)
    requires 0 < n <= |files| && outRate != 0 && inRate != outRate
    requires ThinnedSoFar(files, n - 1, dims, data, inRate / outRate)
    requires Part(files[n - 1], dims, inRate, outRate).Ok?
    ensures var (dims', body) := Part(files[n - 1], dims, inRate, outRate).value;
      ThinnedSoFar(files, n, dims', data + body, inRate / outRate)
  {
    var ratio := inRate / outRate;
    var (dims', body) := Part(files[n - 1], dims, inRate, outRate).value;
    if Frame(dims') != 0 && ratio != 0 {
      if dims != dims' {
        assert dims.width == 0 && Frame(dims) == 0;
        ThinnedEmpty(files, n - 1, Frame(dims'), ratio);
      }
      assert body == Decimate(Body(files[n - 1]), Frame(dims'), ratio);
    } else {
      assert body == [] && Body(files[n - 1]) == [];
      assert data + body == [];
    }
  }

  /** With different rates, the bodies the loop accepted are each thinned
      out with the final frame size; when that size or the rate ratio is
      zero, every body was empty. */
  lemma {:induction false} GatherThinned(files: seq<seq<real>>, n: nat, inRate: int, outRate: int)
    requires n <= |files| && outRate != 0 && inRate != outRate
    requires Gather(files, n, inRate, outRate).Ok?
    ensures ThinnedSoFar(files, n, Gather(files, n, inRate, outRate).value.0, Gather(files, n, inRate, outRate).value.1, inRate / outRate)
    decreases n
  {
    if n > 0 {
      var g := Gather(files, n - 1, inRate, outRate);
      assert g.Ok?;
      GatherThinned(files, n - 1, inRate, outRate);
      ThinnedStep(files, n, g.value.0, g.value.1, inRate, outRate);
    }
  }

  /** An accepted run had compatible rates, and every file had a header;
      every header with a nonzero width is the one written out; the output
      is that header followed by the bodies, unchanged when the rates are
      equal and thinned out frame by frame otherwise. */
  lemma OutputAccepted(files: seq<seq<real>>, inRate: int, outRate: int)
    requires Output(files, inRate, outRate).Ok?
    ensures outRate <= inRate && outRate != 0 && inRate % outRate == 0
    ensures forall k :: 0 <= k < |files| ==> |files[k]| >= 2
    ensures forall k :: 0 <= k < |files| && Header(files[k]).width != 0 ==>
      Output(files, inRate, outRate).value[..2] == [Header(files[k]).width as real, Header(files[k]).height as real]
    ensures inRate == outRate ==> Output(files, inRate, outRate).value[2..] == Bodies(files, |files|)
  {
    GatherHeaders(files, |files|, inRate, outRate);
    var out := Output(files, inRate, outRate).value;
    var (dims, data) := Gather(files, |files|, inRate, outRate).value;
    assert out[..2] == [dims.width as real, dims.height as real] && out[2..] == data;
    if inRate == outRate {
      GatherPassThrough(files, |files|, inRate);
    }
  }

  /** An accepted run with different rates writes each body thinned out
      with the header's frame size and the rate ratio. */
  lemma OutputThinned(files: seq<seq<real>>, inRate: int, outRate: int)
    requires Output(files, inRate, outRate).Ok? && inRate != outRate
    ensures var out := Output(files, inRate, outRate).value;
      var frame := Frame(Header(out));
      && (frame != 0 && inRate / outRate != 0 ==> out[2..] == Thinned(files, |files|, frame, inRate / outRate))
      && (frame == 0 || inRate / outRate == 0 ==> out[2..] == [])
  {
    var out := Output(files, inRate, outRate).value;
    var (dims, data) := Gather(files, |files|, inRate, outRate).value;
    assert out[2..] == data;
    TruncOfInt(dims.width);
    TruncOfInt(dims.height);
    GatherThinned(files, |files|, inRate, outRate);
  }

  /** In an accepted run, every two headers of nonzero width agree. */
  lemma SameHeaders(files: seq<seq<real>>, inRate: int, outRate: int, i: nat, j: nat)
    requires Output(files, inRate, outRate).Ok?
    requires i < |files| && j < |files| && |files[i]| >= 2 && |files[j]| >= 2
    requires Header(files[i]).width != 0 && Header(files[j]).width != 0
    ensures Header(files[i]) == Header(files[j])
  {
    OutputAccepted(files, inRate, outRate);
    var out := Output(files, inRate, outRate).value;
    TruncOfInt(Header(files[i]).width);
    TruncOfInt(Header(files[i]).height);
    TruncOfInt(Header(files[j]).width);
    TruncOfInt(Header(files[j]).height);
    assert out[0] == Header(files[i]).width as real == Header(files[j]).width as real;
    assert out[1] == Header(files[i]).height as real == Header(files[j]).height as real;
  }

  /** Two files with different headers of nonzero width are rejected, and
      so is a file without a header. */
  lemma Rejected(files: seq<seq<real>>, inRate: int, outRate: int, i: nat, j: nat)
    requires i < |files| && j < |files|
    requires |files[i]| < 2 || (|files[j]| >= 2 && |files[i]| >= 2 && Header(files[i]).width != 0 && Header(files[j]).width != 0 && Header(files[i]) != Header(files[j]))
    ensures Output(files, inRate, outRate).Err?
  {
    if Output(files, inRate, outRate).Ok? {
      if |files[i]| >= 2 {
        SameHeaders(files, inRate, outRate, i, j);
      } else {
        OutputAccepted(files, inRate, outRate);
      }
      assert false;
    }
  }
}
