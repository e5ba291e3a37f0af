/**
 * The parameter registry: a bounded table of named configuration
 * parameters, each kept as text and, for integers, as a number, with a
 * per-parameter "new value" flag and a registry-wide dirty flag.
 * The file's globals (the table, its count and the dirty flag) are the
 * fields of one ParmRegistry object.
 */
module Parms {
  import opened Decimal

  const MaxParms := 40
  const NotFound := "not found"

  /** TYPE_STR, TYPE_INT and TYPE_IP (floating-point parameters are not modelled). */
  datatype ParmType = TypeStr | TypeInt | TypeIp

  /** An IPAddress: four octets. */
  datatype IpAddress = IpAddress(o0: bv8, o1: bv8, o2: bv8, o3: bv8)

  /** sprintf "%d.%d.%d.%d" of the four octets. */
  function DottedQuad(ip: IpAddress): string {
    FormatInt(ip.o0 as int) + "." + FormatInt(ip.o1 as int) + "."
    + FormatInt(ip.o2 as int) + "." + FormatInt(ip.o3 as int)
  }

  /** A registered entry whose name is exactly `pn` (strcmp == 0). */
  predicate Named(p: Parm?, pn: string) {
    p != null && p.parmName == pn
  }

  /** The position of the first entry named `pn`, or -1 when there is none. */
  function IndexOf(ps: seq<Parm?>, pn: string): (r: int)
    ensures -1 <= r < |ps|
    ensures r == -1 <==> forall i :: 0 <= i < |ps| ==> !Named(ps[i], pn)
    ensures 0 <= r ==> Named(ps[r], pn) && forall i :: 0 <= i < r ==> !Named(ps[i], pn)
  {
    if |ps| == 0 then -1
    else if Named(ps[0], pn) then 0
    else
      var k := IndexOf(ps[1..], pn);
      assert forall i :: 1 <= i < |ps| ==> ps[i] == ps[1..][i - 1];
      if k < 0 then -1 else k + 1
  }

  class ParmRegistry {
    /** parmary: one slot per possible parameter, filled from the front. */
    const parmary: array<Parm?>
    var numParms: int
    var parmsDirty: bool

    ghost predicate Valid()
      reads this, parmary
    {
      parmary.Length == MaxParms && 0 <= numParms <= MaxParms
      && forall i :: 0 <= i < numParms ==> parmary[i] != null && parmary[i].reg == this
    }

    /** The registered parameters, in registration order. */
    function Entries(): seq<Parm?>
      requires Valid()
      reads this, parmary
    {
      parmary[..numParms]
    }

    /** The parameter that setParmVal(pn, ...) would change, if any. */
    function Target(pn: string): set<Parm?>
      requires Valid()
      reads this, parmary
    {
      var i := IndexOf(Entries(), pn);
      if i < 0 then {} else {parmary[i]}
    }

    /** The empty table of a freshly started program. */
    constructor ()
      ensures Valid() && fresh(parmary)
      ensures numParms == 0 && !parmsDirty
    {
      parmary := new Parm?[MaxParms](_ => null);
      numParms := 0;
      parmsDirty := false;
    }

    /** setParmsDirty() */
    method SetParmsDirty()
      modifies this`parmsDirty
      ensures parmsDirty
    {
      parmsDirty := true;
    }

    /** addParm(p): append `p` if there is room; a full table is left as it is. */
    method AddParm(p: Parm) returns (ok: bool)
      requires Valid() && p.reg == this
      modifies this`numParms, parmary
      ensures Valid()
      ensures ok == (old(numParms) < MaxParms)
      ensures ok ==> numParms == old(numParms) + 1 && Entries() == old(Entries()) + [p]
      ensures !ok ==> numParms == old(numParms) && parmary[..] == old(parmary[..])
    {
      if numParms < MaxParms {
        parmary[numParms] := p;
        numParms := numParms + 1;
        ok := true;
      } else {
        ok := false;
      }
    }

    /** findParmIndex(pn): linear search from the front. */
    method FindParmIndex(pn: string) returns (i: int)
      requires Valid()
      ensures i == IndexOf(Entries(), pn)
      ensures 0 <= i ==> parmary[i].parmName == pn
    {
      var k := 0;
      while k < numParms
        invariant 0 <= k <= numParms
        invariant forall j :: 0 <= j < k ==> !Named(Entries()[j], pn)
      {
        if parmary[k].parmName == pn {
          return k;
        }
        k := k + 1;
      }
      return -1;
    }

    /** findParm(pn): the entry itself, or null. */
    method FindParm(pn: string) returns (p: Parm?)
      requires Valid()
      ensures var i := IndexOf(Entries(), pn);
              p == if i < 0 then null else Entries()[i]
      ensures p == null <==> forall j :: 0 <= j < numParms ==> parmary[j].parmName != pn
    {
      var k := 0;
      while k < numParms
        invariant 0 <= k <= numParms
        invariant forall j :: 0 <= j < k ==> !Named(Entries()[j], pn)
      {
        if parmary[k].parmName == pn {
          return parmary[k];
        }
        k := k + 1;
      }
      return null;
    }

    /** parmVal(pn): the text of the named parameter, or "not found". */
    method ParmValOf(pn: string) returns (s: string)
      requires Valid()
      ensures var i := IndexOf(Entries(), pn);
              s == if i < 0 then NotFound else Entries()[i].ParmVal()
    {
      var i := FindParmIndex(pn);
      if i >= 0 {
        s := parmary[i].ParmVal();
      } else {
        s := NotFound;
      }
    }

    /**
     * setParmVal(pn, val): give the named parameter the text `val`; an
     * unknown name changes nothing and answers false.
     */
    method SetParmVal(pn: string, val: string) returns (ok: bool)
      requires Valid()
      modifies this`parmsDirty, Target(pn)
      ensures Valid() && Entries() == old(Entries())
      ensures ok == (IndexOf(Entries(), pn) >= 0)
      ensures !ok ==> parmsDirty == old(parmsDirty)
      ensures ok ==> parmsDirty
      ensures ok ==> var p := Entries()[IndexOf(Entries(), pn)];
                     p.ParmVal() == val && p.newparm
                     && (p.parmType == TypeInt ==> p.intval == Atoi(val))
    {
      var i := FindParmIndex(pn);
      if i >= 0 {
        var p := parmary[i];
        p.SetParmValStr(val);
        ok := true;
      } else {
        ok := false;
      }
    }
  }

  class Parm {
    const reg: ParmRegistry
    const parmName: string
    const engName: string
    const units: string
    const parmType: ParmType
    /** The caller's buffer holding a string parameter's value. */
    var strval: string
    /** The text of an integer or IP parameter. */
    var strbuf: string
    var intval: int
    var intRangeMax: int
    var intRangeMin: int
    var newparm: bool

    /** parmVal(): a string parameter's own buffer, otherwise the text form. */
    function ParmVal(): string
      reads this
    {
      if parmType == TypeStr then strval else strbuf
    }

    /** An integer parameter's text reads back as its number. */
    predicate IntConsistent()
      reads this
    {
      parmType == TypeInt ==> Atoi(strbuf) == intval
    }

    /** The string-parameter constructor. */
    constructor Str(reg: ParmRegistry, parmName: string, engName: string, val: string)
      requires reg.Valid()
      modifies reg, reg.parmary
      ensures reg.Valid()
      ensures old(reg.numParms) < MaxParms ==> reg.Entries() == old(reg.Entries()) + [this]
      ensures MaxParms <= old(reg.numParms) ==>
                reg.numParms == old(reg.numParms) && reg.parmary[..] == old(reg.parmary[..])
      ensures this.reg == reg && this.parmName == parmName && this.engName == engName
      ensures units == "" && parmType == TypeStr && strval == val && ParmVal() == val
      ensures newparm && reg.parmsDirty
    {
      this.reg := reg;
      this.parmName := parmName;
      this.engName := engName;
      units := "";
      parmType := TypeStr;
      strval := val;
      strbuf := "";
      intval := 0;
      intRangeMax := 0;
      intRangeMin := 0;
      newparm := false;
      new;
      var _ := reg.AddParm(this);
      newparm := true;
      reg.SetParmsDirty();
    }

    /** The integer-parameter constructor. */
    constructor Int(reg: ParmRegistry, parmName: string, engName: string, units: string, val: int)
      requires reg.Valid()
      modifies reg, reg.parmary
      ensures reg.Valid()
      ensures old(reg.numParms) < MaxParms ==> reg.Entries() == old(reg.Entries()) + [this]
      ensures MaxParms <= old(reg.numParms) ==>
                reg.numParms == old(reg.numParms) && reg.parmary[..] == old(reg.parmary[..])
      ensures this.reg == reg && this.parmName == parmName && this.engName == engName
      ensures this.units == units && parmType == TypeInt
      ensures intval == val && ParmVal() == FormatInt(val) && IntConsistent()
      ensures newparm && reg.parmsDirty
    {
      this.reg := reg;
      this.parmName := parmName;
      this.engName := engName;
      this.units := units;
      parmType := TypeInt;
      strval := "";
      strbuf := "";
      intval := val;
      intRangeMax := 0;
      intRangeMin := 0;
      newparm := false;
      new;
      var _ := reg.AddParm(this);
      strbuf := FormatInt(val);
      AtoiFormatInt(val);
      newparm := true;
      reg.SetParmsDirty();
    }

    /** The integer-parameter constructor with range limits. */
    constructor IntRange(reg: ParmRegistry, parmName: string, engName: string, units: string,
                         val: int, maxval: int, minval: int)
      requires reg.Valid()
      modifies reg, reg.parmary
      ensures reg.Valid()
      ensures old(reg.numParms) < MaxParms ==> reg.Entries() == old(reg.Entries()) + [this]
      ensures MaxParms <= old(reg.numParms) ==>
                reg.numParms == old(reg.numParms) && reg.parmary[..] == old(reg.parmary[..])
      ensures this.reg == reg && this.parmName == parmName && this.engName == engName
      ensures this.units == units && parmType == TypeInt
      ensures intRangeMax == maxval && intRangeMin == minval
      ensures intval == val && ParmVal() == FormatInt(val) && IntConsistent()
      ensures newparm && reg.parmsDirty
    {
      this.reg := reg;
      this.parmName := parmName;
      this.engName := engName;
      this.units := units;
      parmType := TypeInt;
      strval := "";
      strbuf := "";
      intval := val;
      intRangeMax := maxval;
      intRangeMin := minval;
      newparm := false;
      new;
      var _ := reg.AddParm(this);
      strbuf := FormatInt(val);
      AtoiFormatInt(val);
      newparm := true;
      reg.SetParmsDirty();
    }

    /** The IP-address constructor. */
    constructor Ip(reg: ParmRegistry, parmName: string, engName: string, ip: IpAddress)
      requires reg.Valid()
      modifies reg, reg.parmary
      ensures reg.Valid()
      ensures old(reg.numParms) < MaxParms ==> reg.Entries() == old(reg.Entries()) + [this]
      ensures MaxParms <= old(reg.numParms) ==>
                reg.numParms == old(reg.numParms) && reg.parmary[..] == old(reg.parmary[..])
      ensures this.reg == reg && this.parmName == parmName && this.engName == engName
      ensures units == "" && parmType == TypeIp && ParmVal() == DottedQuad(ip)
      ensures newparm && reg.parmsDirty
    {
      this.reg := reg;
      this.parmName := parmName;
      this.engName := engName;
      units := "";
      parmType := TypeIp;
      strval := "";
      strbuf := "";
      intval := 0;
      intRangeMax := 0;
      intRangeMin := 0;
      newparm := false;
      new;
      var _ := reg.AddParm(this);
      strbuf := DottedQuad(ip);
      newparm := true;
      reg.SetParmsDirty();
    }

    /**
     * setParmVal(char*): a string parameter takes `val` as its value; an
     * integer parameter takes it as its text and its atoi as its number;
     * an IP parameter takes it as its text. Either way parmVal() is now
     * `val` and both flags are raised.
     */
    method SetParmValStr(val: string)
      modifies this`strval, this`strbuf, this`intval, this`newparm, reg`parmsDirty
      ensures parmType == TypeStr ==> strval == val && strbuf == old(strbuf) && intval == old(intval)
      ensures parmType == TypeInt ==> strbuf == val && intval == Atoi(val) && strval == old(strval)
      ensures parmType == TypeIp ==> strbuf == val && intval == old(intval) && strval == old(strval)
      ensures ParmVal() == val && IntConsistent()
      ensures newparm && reg.parmsDirty
    {
      if parmType == TypeStr {
        strval := val;
      }
      if parmType == TypeInt {
        strbuf := val;
        intval := Atoi(val);
      }
      if parmType == TypeIp {
        strbuf := val;
      }
      newparm := true;
      reg.SetParmsDirty();
    }

    /** setParmVal(int): store the number and its decimal text; raise both flags. */
    method SetParmValInt(val: int)
      modifies this`strbuf, this`intval, this`newparm, reg`parmsDirty
      ensures strbuf == FormatInt(val) && intval == val && IntConsistent()
      ensures parmType != TypeStr ==> ParmVal() == FormatInt(val)
      ensures newparm && reg.parmsDirty
    {
      strbuf := FormatInt(val);
      AtoiFormatInt(val);
      intval := val;
      newparm := true;
      reg.SetParmsDirty();
    }

    /** setParmVal(IPAddress): store the dotted text; neither flag is touched. */
    method SetParmValIp(ip: IpAddress)
      modifies this`strbuf
      ensures strbuf == DottedQuad(ip)
      ensures parmType != TypeStr ==> ParmVal() == DottedQuad(ip)
    {
      strbuf := DottedQuad(ip);
    }

    /** checkNewParm(): report the flag and clear it. */
    method CheckNewParm() returns (b: bool)
      modifies this`newparm
      ensures b == old(newparm) && !newparm
    {
      b := newparm;
      newparm := false;
    }
  }

  /** Two checks in a row: the second reports no new value. */
  method CheckNewParmTwice(p: Parm) returns (first: bool, second: bool)
    modifies p`newparm
    ensures first == old(p.newparm) && !second && !p.newparm
  {
    first := p.CheckNewParm();
    second := p.CheckNewParm();
  }
}
