/** Output file naming shared by the frame generator, the agents, the
    RIFE/FILM `save_frames` helpers and the multi-keyframe script. */
module Naming {
  import opened Text

  /** `f"{prefix}_{index:03d}.png"`. */
  function FrameFileName(prefix: string, index: nat): string {
    prefix + "_" + Pad3(index) + ".png"
  }

  /** `str(Path(dir) / name)` for a directory given without a trailing separator. */
  function JoinPath(dir: string, name: string): string {
    dir + "/" + name
  }

  /** Two frame indices never share a file name, so no frame overwrites another. */
  lemma FrameFileNameInjective(prefix: string, i: nat, j: nat)
    requires FrameFileName(prefix, i) == FrameFileName(prefix, j)
    ensures i == j
  {
    var a := FrameFileName(prefix, i);
    var b := FrameFileName(prefix, j);
    assert |Pad3(i)| == |Pad3(j)|;
    var lo := |prefix| + 1;
    assert a[lo..lo + |Pad3(i)|] == Pad3(i);
    assert b[lo..lo + |Pad3(j)|] == Pad3(j);
    Pad3Injective(i, j);
  }

  /** The same holds for names placed in one directory. */
  lemma JoinedFrameFileNameInjective(dir: string, prefix: string, i: nat, j: nat)
    requires JoinPath(dir, FrameFileName(prefix, i)) == JoinPath(dir, FrameFileName(prefix, j))
    ensures i == j
  {
    var a := JoinPath(dir, FrameFileName(prefix, i));
    var b := JoinPath(dir, FrameFileName(prefix, j));
    assert a[|dir| + 1..] == FrameFileName(prefix, i);
    assert b[|dir| + 1..] == FrameFileName(prefix, j);
    FrameFileNameInjective(prefix, i, j);
  }
}
