/** The small context record of readdy2/main/model/KernelContext.cpp: the
    thermal energy kBT, the box size and the periodicity of each axis. */
module KernelContexts {

  class KernelContext {
    var kBT: real
    var boxSize: (real, real, real)
    var periodicBoundary: (bool, bool, bool)

    /** The default context: kBT 0, a zero box, no periodic axis. */
    constructor ()
      ensures kBT == 0.0 && boxSize == (0.0, 0.0, 0.0)
      ensures periodicBoundary == (false, false, false)
    {
      kBT := 0.0;
      boxSize := (0.0, 0.0, 0.0);
      periodicBoundary := (false, false, false);
    }

    /** Copy construction copies all three fields. */
    constructor Copy(rhs: KernelContext)
      ensures kBT == rhs.kBT && boxSize == rhs.boxSize
      ensures periodicBoundary == rhs.periodicBoundary
    {
      kBT := rhs.kBT;
      boxSize := rhs.boxSize;
      periodicBoundary := rhs.periodicBoundary;
    }

    function GetKBT(): real
      reads this
    {
      kBT
    }

    function GetBoxSize(): (real, real, real)
      reads this
    {
      boxSize
    }

    function GetPeriodicBoundary(): (bool, bool, bool)
      reads this
    {
      periodicBoundary
    }

    method SetKBT(value: real)
      modifies this
      ensures GetKBT() == value
      ensures boxSize == old(boxSize) && periodicBoundary == old(periodicBoundary)
    {
      kBT := value;
    }

    method SetBoxSize(dx: real, dy: real, dz: real)
      modifies this
      ensures GetBoxSize() == (dx, dy, dz)
      ensures kBT == old(kBT) && periodicBoundary == old(periodicBoundary)
    {
      boxSize := (dx, dy, dz);
    }

    method SetPeriodicBoundary(pbX: bool, pbY: bool, pbZ: bool)
      modifies this
      ensures GetPeriodicBoundary() == (pbX, pbY, pbZ)
      ensures kBT == old(kBT) && boxSize == old(boxSize)
    {
      periodicBoundary := (pbX, pbY, pbZ);
    }

    /** Copy assignment: all three fields take the values of `rhs`; `rhs`
        itself is not changed (unless it is this very object). */
    method Assign(rhs: KernelContext)
      modifies this
      ensures kBT == old(rhs.kBT) && boxSize == old(rhs.boxSize)
      ensures periodicBoundary == old(rhs.periodicBoundary)
      ensures rhs != this ==> unchanged(rhs)
    {
      kBT, boxSize, periodicBoundary := rhs.kBT, rhs.boxSize, rhs.periodicBoundary;
    }
  }

  /** Each setter followed by its getter returns what was set, and the
      setters of the other fields do not disturb it. */
  method SettersRoundTrip(t: real, dx: real, dy: real, dz: real, pbX: bool, pbY: bool, pbZ: bool)
    returns (kBT: real, box: (real, real, real), periodic: (bool, bool, bool))
    ensures kBT == t && box == (dx, dy, dz) && periodic == (pbX, pbY, pbZ)
  {
    var ctx := new KernelContext();
    ctx.SetKBT(t);
    ctx.SetBoxSize(dx, dy, dz);
    ctx.SetPeriodicBoundary(pbX, pbY, pbZ);
    kBT, box, periodic := ctx.GetKBT(), ctx.GetBoxSize(), ctx.GetPeriodicBoundary();
  }

  /** A copy-constructed context starts equal to its source, and later
      changes to the copy leave the source as it was. */
  method CopyIsIndependent(t: real, u: real, dx: real)
    returns (copiedKBT: real, sourceKBT: real, sourceBox: (real, real, real))
    ensures copiedKBT == t
    ensures sourceKBT == t && sourceBox == (0.0, 0.0, 0.0)
  {
    var source := new KernelContext();
    source.SetKBT(t);
    var copy := new KernelContext.Copy(source);
    copiedKBT := copy.GetKBT();
    copy.SetKBT(u);
    copy.SetBoxSize(dx, dx, dx);
    sourceKBT, sourceBox := source.GetKBT(), source.GetBoxSize();
  }

  /** The same for copy assignment. */
  method AssignmentIsIndependent(t: real, u: real)
    returns (assignedKBT: real, sourceKBT: real, assignedPeriodic: (bool, bool, bool))
    ensures assignedKBT == u && sourceKBT == t
    ensures assignedPeriodic == (true, false, false)
  {
    var source := new KernelContext();
    source.SetKBT(t);
    source.SetPeriodicBoundary(true, false, false);
    var target := new KernelContext();
    target.Assign(source);
    target.SetKBT(u);
    assignedKBT, sourceKBT, assignedPeriodic := target.GetKBT(), source.GetKBT(), target.GetPeriodicBoundary();
  }
}
