/** The chemical elements and their standard atomic weights (src/element.rs).

    The source's `ElementSymbol` is a fieldless enum whose discriminants are
    written out: `None = 0`, `H = 1`, ..., `Og = 118`, the atomic numbers. It is
    modelled by those discriminants, a newtype over 0..118, with one named
    constant per variant. */
module Elements {

  /** An element, by its atomic number; 0 is the sentinel `None`. */
  newtype ElementSymbol = n: int | 0 <= n <= 118

  const None: ElementSymbol := 0
  const H: ElementSymbol := 1
  const He: ElementSymbol := 2
  const Li: ElementSymbol := 3
  const Be: ElementSymbol := 4
  const B: ElementSymbol := 5
  const C: ElementSymbol := 6
  const N: ElementSymbol := 7
  const O: ElementSymbol := 8
  const F: ElementSymbol := 9
  const Ne: ElementSymbol := 10
  const Na: ElementSymbol := 11
  const Mg: ElementSymbol := 12
  const Al: ElementSymbol := 13
  const Si: ElementSymbol := 14
  const P: ElementSymbol := 15
  const S: ElementSymbol := 16
  const Cl: ElementSymbol := 17
  const Ar: ElementSymbol := 18
  const K: ElementSymbol := 19
  const Ca: ElementSymbol := 20
  const Sc: ElementSymbol := 21
  const Ti: ElementSymbol := 22
  const V: ElementSymbol := 23
  const Cr: ElementSymbol := 24
  const Mn: ElementSymbol := 25
  const Fe: ElementSymbol := 26
  const Co: ElementSymbol := 27
  const Ni: ElementSymbol := 28
  const Cu: ElementSymbol := 29
  const Zn: ElementSymbol := 30
  const Ga: ElementSymbol := 31
  const Ge: ElementSymbol := 32
  const As: ElementSymbol := 33
  const Se: ElementSymbol := 34
  const Br: ElementSymbol := 35
  const Kr: ElementSymbol := 36
  const Rb: ElementSymbol := 37
  const Sr: ElementSymbol := 38
  const Y: ElementSymbol := 39
  const Zr: ElementSymbol := 40
  const Nb: ElementSymbol := 41
  const Mo: ElementSymbol := 42
  const Tc: ElementSymbol := 43
  const Ru: ElementSymbol := 44
  const Rh: ElementSymbol := 45
  const Pd: ElementSymbol := 46
  const Ag: ElementSymbol := 47
  const Cd: ElementSymbol := 48
  const In: ElementSymbol := 49
  const Sn: ElementSymbol := 50
  const Sb: ElementSymbol := 51
  const Te: ElementSymbol := 52
  const I: ElementSymbol := 53
  const Xe: ElementSymbol := 54
  const Cs: ElementSymbol := 55
  const Ba: ElementSymbol := 56
  const La: ElementSymbol := 57
  const Ce: ElementSymbol := 58
  const Pr: ElementSymbol := 59
  const Nd: ElementSymbol := 60
  const Pm: ElementSymbol := 61
  const Sm: ElementSymbol := 62
  const Eu: ElementSymbol := 63
  const Gd: ElementSymbol := 64
  const Tb: ElementSymbol := 65
  const Dy: ElementSymbol := 66
  const Ho: ElementSymbol := 67
  const Er: ElementSymbol := 68
  const Tm: ElementSymbol := 69
  const Yb: ElementSymbol := 70
  const Lu: ElementSymbol := 71
  const Hf: ElementSymbol := 72
  const Ta: ElementSymbol := 73
  const W: ElementSymbol := 74
  const Re: ElementSymbol := 75
  const Os: ElementSymbol := 76
  const Ir: ElementSymbol := 77
  const Pt: ElementSymbol := 78
  const Au: ElementSymbol := 79
  const Hg: ElementSymbol := 80
  const Tl: ElementSymbol := 81
  const Pb: ElementSymbol := 82
  const Bi: ElementSymbol := 83
  const Po: ElementSymbol := 84
  const At: ElementSymbol := 85
  const Rn: ElementSymbol := 86
  const Fr: ElementSymbol := 87
  const Ra: ElementSymbol := 88
  const Ac: ElementSymbol := 89
  const Th: ElementSymbol := 90
  const Pa: ElementSymbol := 91
  const U: ElementSymbol := 92
  const Np: ElementSymbol := 93
  const Pu: ElementSymbol := 94
  const Am: ElementSymbol := 95
  const Cm: ElementSymbol := 96
  const Bk: ElementSymbol := 97
  const Cf: ElementSymbol := 98
  const Es: ElementSymbol := 99
  const Fm: ElementSymbol := 100
  const Md: ElementSymbol := 101
  const No: ElementSymbol := 102
  const Lr: ElementSymbol := 103
  const Rf: ElementSymbol := 104
  const Db: ElementSymbol := 105
  const Sg: ElementSymbol := 106
  const Bh: ElementSymbol := 107
  const Hs: ElementSymbol := 108
  const Mt: ElementSymbol := 109
  const Ds: ElementSymbol := 110
  const Rg: ElementSymbol := 111
  const Cn: ElementSymbol := 112
  const Nh: ElementSymbol := 113
  const Fl: ElementSymbol := 114
  const Mc: ElementSymbol := 115
  const Lv: ElementSymbol := 116
  const Ts: ElementSymbol := 117
  const Og: ElementSymbol := 118

  /** The name of a variant, which is how the source prints it (its derived
      `Debug`): for each of the 118 elements, its chemical symbol. */
  function Name(e: ElementSymbol): string {
    match e
    case None => "None"
    case H => "H"
    case He => "He"
    case Li => "Li"
    case Be => "Be"
    case B => "B"
    case C => "C"
    case N => "N"
    case O => "O"
    case F => "F"
    case Ne => "Ne"
    case Na => "Na"
    case Mg => "Mg"
    case Al => "Al"
    case Si => "Si"
    case P => "P"
    case S => "S"
    case Cl => "Cl"
    case Ar => "Ar"
    case K => "K"
    case Ca => "Ca"
    case Sc => "Sc"
    case Ti => "Ti"
    case V => "V"
    case Cr => "Cr"
    case Mn => "Mn"
    case Fe => "Fe"
    case Co => "Co"
    case Ni => "Ni"
    case Cu => "Cu"
    case Zn => "Zn"
    case Ga => "Ga"
    case Ge => "Ge"
    case As => "As"
    case Se => "Se"
    case Br => "Br"
    case Kr => "Kr"
    case Rb => "Rb"
    case Sr => "Sr"
    case Y => "Y"
    case Zr => "Zr"
    case Nb => "Nb"
    case Mo => "Mo"
    case Tc => "Tc"
    case Ru => "Ru"
    case Rh => "Rh"
    case Pd => "Pd"
    case Ag => "Ag"
    case Cd => "Cd"
    case In => "In"
    case Sn => "Sn"
    case Sb => "Sb"
    case Te => "Te"
    case I => "I"
    case Xe => "Xe"
    case Cs => "Cs"
    case Ba => "Ba"
    case La => "La"
    case Ce => "Ce"
    case Pr => "Pr"
    case Nd => "Nd"
    case Pm => "Pm"
    case Sm => "Sm"
    case Eu => "Eu"
    case Gd => "Gd"
    case Tb => "Tb"
    case Dy => "Dy"
    case Ho => "Ho"
    case Er => "Er"
    case Tm => "Tm"
    case Yb => "Yb"
    case Lu => "Lu"
    case Hf => "Hf"
    case Ta => "Ta"
    case W => "W"
    case Re => "Re"
    case Os => "Os"
    case Ir => "Ir"
    case Pt => "Pt"
    case Au => "Au"
    case Hg => "Hg"
    case Tl => "Tl"
    case Pb => "Pb"
    case Bi => "Bi"
    case Po => "Po"
    case At => "At"
    case Rn => "Rn"
    case Fr => "Fr"
    case Ra => "Ra"
    case Ac => "Ac"
    case Th => "Th"
    case Pa => "Pa"
    case U => "U"
    case Np => "Np"
    case Pu => "Pu"
    case Am => "Am"
    case Cm => "Cm"
    case Bk => "Bk"
    case Cf => "Cf"
    case Es => "Es"
    case Fm => "Fm"
    case Md => "Md"
    case No => "No"
    case Lr => "Lr"
    case Rf => "Rf"
    case Db => "Db"
    case Sg => "Sg"
    case Bh => "Bh"
    case Hs => "Hs"
    case Mt => "Mt"
    case Ds => "Ds"
    case Rg => "Rg"
    case Cn => "Cn"
    case Nh => "Nh"
    case Fl => "Fl"
    case Mc => "Mc"
    case Lv => "Lv"
    case Ts => "Ts"
    case Og => "Og"
  }

  /** `ElementSymbol::from_str`: each of the 118 chemical symbols gives its
      element, every other string (the empty one, "None", "Xx", "si", "SiO")
      gives `None`. Every symbol has one or two letters, so the lookup is
      split on the length of the string and then on its letters. */
  function FromStr(s: string): (r: ElementSymbol)
    ensures r == None || Name(r) == s
  {
    if |s| == 1 then FromLetter(s[0])
    else if |s| == 2 then FromLetters(s[0], s[1])
    else None
  }

  /** The one-letter symbols. */
  function FromLetter(c: char): (r: ElementSymbol)
    ensures r == None || Name(r) == [c]
  {
    match c
    case 'H' => H
    case 'B' => B
    case 'C' => C
    case 'N' => N
    case 'O' => O
    case 'F' => F
    case 'P' => P
    case 'S' => S
    case 'K' => K
    case 'V' => V
    case 'Y' => Y
    case 'I' => I
    case 'W' => W
    case 'U' => U
    case _ => None
  }

  /** The two-letter symbols, by their capital letter. */
  function FromLetters(a: char, b: char): (r: ElementSymbol)
    ensures r == None || Name(r) == [a, b]
  {
    match a
    case 'H' => AfterH(b)
    case 'L' => AfterL(b)
    case 'B' => AfterB(b)
    case 'N' => AfterN(b)
    case 'M' => AfterM(b)
    case 'A' => AfterA(b)
    case 'S' => AfterS(b)
    case 'C' => AfterC(b)
    case 'T' => AfterT(b)
    case 'F' => AfterF(b)
    case 'Z' => AfterZ(b)
    case 'G' => AfterG(b)
    case 'K' => AfterK(b)
    case 'R' => AfterR(b)
    case 'P' => AfterP(b)
    case 'I' => AfterI(b)
    case 'X' => AfterX(b)
    case 'E' => AfterE(b)
    case 'D' => AfterD(b)
    case 'Y' => AfterY(b)
    case 'O' => AfterO(b)
    case _ => None
  }

  /** The two-letter symbols that start with H. */
  function AfterH(b: char): (r: ElementSymbol)
    ensures r == None || Name(r) == ['H', b]
  {
    match b
    case 'e' => He
    case 'o' => Ho
    case 'f' => Hf
    case 'g' => Hg
    case 's' => Hs
    case _ => None
  }

  /** The two-letter symbols that start with L. */
  function AfterL(b: char): (r: ElementSymbol)
    ensures r == None || Name(r) == ['L', b]
  {
    match b
    case 'i' => Li
    case 'a' => La
    case 'u' => Lu
    case 'r' => Lr
    case 'v' => Lv
    case _ => None
  }

  /** The two-letter symbols that start with B. */
  function AfterB(b: char): (r: ElementSymbol)
    ensures r == None || Name(r) == ['B', b]
  {
    match b
    case 'e' => Be
    case 'r' => Br
    case 'a' => Ba
    case 'i' => Bi
    case 'k' => Bk
    case 'h' => Bh
    case _ => None
  }

  /** The two-letter symbols that start with N. */
  function AfterN(b: char): (r: ElementSymbol)
    ensures r == None || Name(r) == ['N', b]
  {
    match b
    case 'e' => Ne
    case 'a' => Na
    case 'i' => Ni
    case 'b' => Nb
    case 'd' => Nd
    case 'p' => Np
    case 'o' => No
    case 'h' => Nh
    case _ => None
  }

  /** The two-letter symbols that start with M. */
  function AfterM(b: char): (r: ElementSymbol)
    ensures r == None || Name(r) == ['M', b]
  {
    match b
    case 'g' => Mg
    case 'n' => Mn
    case 'o' => Mo
    case 'd' => Md
    case 't' => Mt
    case 'c' => Mc
    case _ => None
  }

  /** The two-letter symbols that start with A. */
  function AfterA(b: char): (r: ElementSymbol)
    ensures r == None || Name(r) == ['A', b]
  {
    match b
    case 'l' => Al
    case 'r' => Ar
    case 's' => As
    case 'g' => Ag
    case 'u' => Au
    case 't' => At
    case 'c' => Ac
    case 'm' => Am
    case _ => None
  }

  /** The two-letter symbols that start with S. */
  function AfterS(b: char): (r: ElementSymbol)
    ensures r == None || Name(r) == ['S', b]
  {
    match b
    case 'i' => Si
    case 'c' => Sc
    case 'e' => Se
    case 'r' => Sr
    case 'n' => Sn
    case 'b' => Sb
    case 'm' => Sm
    case 'g' => Sg
    case _ => None
  }

  /** The two-letter symbols that start with C. */
  function AfterC(b: char): (r: ElementSymbol)
    ensures r == None || Name(r) == ['C', b]
  {
    match b
    case 'l' => Cl
    case 'a' => Ca
    case 'r' => Cr
    case 'o' => Co
    case 'u' => Cu
    case 'd' => Cd
    case 's' => Cs
    case 'e' => Ce
    case 'm' => Cm
    case 'f' => Cf
    case 'n' => Cn
    case _ => None
  }

  /** The two-letter symbols that start with T. */
  function AfterT(b: char): (r: ElementSymbol)
    ensures r == None || Name(r) == ['T', b]
  {
    match b
    case 'i' => Ti
    case 'c' => Tc
    case 'e' => Te
    case 'b' => Tb
    case 'm' => Tm
    case 'a' => Ta
    case 'l' => Tl
    case 'h' => Th
    case 's' => Ts
    case _ => None
  }

  /** The two-letter symbols that start with F. */
  function AfterF(b: char): (r: ElementSymbol)
    ensures r == None || Name(r) == ['F', b]
  {
    match b
    case 'e' => Fe
    case 'r' => Fr
    case 'm' => Fm
    case 'l' => Fl
    case _ => None
  }

  /** The two-letter symbols that start with Z. */
  function AfterZ(b: char): (r: ElementSymbol)
    ensures r == None || Name(r) == ['Z', b]
  {
    match b
    case 'n' => Zn
    case 'r' => Zr
    case _ => None
  }

  /** The two-letter symbols that start with G. */
  function AfterG(b: char): (r: ElementSymbol)
    ensures r == None || Name(r) == ['G', b]
  {
    match b
    case 'a' => Ga
    case 'e' => Ge
    case 'd' => Gd
    case _ => None
  }

  /** The two-letter symbols that start with K. */
  function AfterK(b: char): (r: ElementSymbol)
    ensures r == None || Name(r) == ['K', b]
  {
    match b
    case 'r' => Kr
    case _ => None
  }

  /** The two-letter symbols that start with R. */
  function AfterR(b: char): (r: ElementSymbol)
    ensures r == None || Name(r) == ['R', b]
  {
    match b
    case 'b' => Rb
    case 'u' => Ru
    case 'h' => Rh
    case 'e' => Re
    case 'n' => Rn
    case 'a' => Ra
    case 'f' => Rf
    case 'g' => Rg
    case _ => None
  }

  /** The two-letter symbols that start with P. */
  function AfterP(b: char): (r: ElementSymbol)
    ensures r == None || Name(r) == ['P', b]
  {
    match b
    case 'd' => Pd
    case 'r' => Pr
    case 'm' => Pm
    case 't' => Pt
    case 'b' => Pb
    case 'o' => Po
    case 'a' => Pa
    case 'u' => Pu
    case _ => None
  }

  /** The two-letter symbols that start with I. */
  function AfterI(b: char): (r: ElementSymbol)
    ensures r == None || Name(r) == ['I', b]
  {
    match b
    case 'n' => In
    case 'r' => Ir
    case _ => None
  }

  /** The two-letter symbols that start with X. */
  function AfterX(b: char): (r: ElementSymbol)
    ensures r == None || Name(r) == ['X', b]
  {
    match b
    case 'e' => Xe
    case _ => None
  }

  /** The two-letter symbols that start with E. */
  function AfterE(b: char): (r: ElementSymbol)
    ensures r == None || Name(r) == ['E', b]
  {
    match b
    case 'u' => Eu
    case 'r' => Er
    case 's' => Es
    case _ => None
  }

  /** The two-letter symbols that start with D. */
  function AfterD(b: char): (r: ElementSymbol)
    ensures r == None || Name(r) == ['D', b]
  {
    match b
    case 'y' => Dy
    case 'b' => Db
    case 's' => Ds
    case _ => None
  }

  /** The two-letter symbols that start with Y. */
  function AfterY(b: char): (r: ElementSymbol)
    ensures r == None || Name(r) == ['Y', b]
  {
    match b
    case 'b' => Yb
    case _ => None
  }

  /** The two-letter symbols that start with O. */
  function AfterO(b: char): (r: ElementSymbol)
    ensures r == None || Name(r) == ['O', b]
  {
    match b
    case 's' => Os
    case 'g' => Og
    case _ => None
  }

  /** Every element's symbol looks up that element, and the sentinel's name
      "None" looks up the sentinel. With the postcondition of `FromStr` this
      gives: `FromStr(s) == e` for an element `e != None` exactly when
      `s == Name(e)`. The cases are checked in ranges of atomic numbers. */
  lemma FromStrName(e: ElementSymbol)
    ensures FromStr(Name(e)) == e
  {
    if e < 12 {
      FromStrNameFrom0(e);
    } else if e < 24 {
      FromStrNameFrom12(e);
    } else if e < 36 {
      FromStrNameFrom24(e);
    } else if e < 48 {
      FromStrNameFrom36(e);
    } else if e < 60 {
      FromStrNameFrom48(e);
    } else if e < 72 {
      FromStrNameFrom60(e);
    } else if e < 84 {
      FromStrNameFrom72(e);
    } else if e < 96 {
      FromStrNameFrom84(e);
    } else if e < 108 {
      FromStrNameFrom96(e);
    } else {
      FromStrNameFrom108(e);
    }
  }

  lemma FromStrNameFrom0(e: ElementSymbol)
    requires e < 12
    ensures FromStr(Name(e)) == e
  {
    match e
    case None => assert FromStr("None") == None;
    case H => assert FromStr("H") == H;
    case He => assert FromStr("He") == He;
    case Li => assert FromStr("Li") == Li;
    case Be => assert FromStr("Be") == Be;
    case B => assert FromStr("B") == B;
    case C => assert FromStr("C") == C;
    case N => assert FromStr("N") == N;
    case O => assert FromStr("O") == O;
    case F => assert FromStr("F") == F;
    case Ne => assert FromStr("Ne") == Ne;
    case Na => assert FromStr("Na") == Na;
  }

  lemma FromStrNameFrom12(e: ElementSymbol)
    requires 12 <= e < 24
    ensures FromStr(Name(e)) == e
  {
    match e
    case Mg => assert FromStr("Mg") == Mg;
    case Al => assert FromStr("Al") == Al;
    case Si => assert FromStr("Si") == Si;
    case P => assert FromStr("P") == P;
    case S => assert FromStr("S") == S;
    case Cl => assert FromStr("Cl") == Cl;
    case Ar => assert FromStr("Ar") == Ar;
    case K => assert FromStr("K") == K;
    case Ca => assert FromStr("Ca") == Ca;
    case Sc => assert FromStr("Sc") == Sc;
    case Ti => assert FromStr("Ti") == Ti;
    case V => assert FromStr("V") == V;
  }

  lemma FromStrNameFrom24(e: ElementSymbol)
    requires 24 <= e < 36
    ensures FromStr(Name(e)) == e
  {
    match e
    case Cr => assert FromStr("Cr") == Cr;
    case Mn => assert FromStr("Mn") == Mn;
    case Fe => assert FromStr("Fe") == Fe;
    case Co => assert FromStr("Co") == Co;
    case Ni => assert FromStr("Ni") == Ni;
    case Cu => assert FromStr("Cu") == Cu;
    case Zn => assert FromStr("Zn") == Zn;
    case Ga => assert FromStr("Ga") == Ga;
    case Ge => assert FromStr("Ge") == Ge;
    case As => assert FromStr("As") == As;
    case Se => assert FromStr("Se") == Se;
    case Br => assert FromStr("Br") == Br;
  }

  lemma FromStrNameFrom36(e: ElementSymbol)
    requires 36 <= e < 48
    ensures FromStr(Name(e)) == e
  {
    match e
    case Kr => assert FromStr("Kr") == Kr;
    case Rb => assert FromStr("Rb") == Rb;
    case Sr => assert FromStr("Sr") == Sr;
    case Y => assert FromStr("Y") == Y;
    case Zr => assert FromStr("Zr") == Zr;
    case Nb => assert FromStr("Nb") == Nb;
    case Mo => assert FromStr("Mo") == Mo;
    case Tc => assert FromStr("Tc") == Tc;
    case Ru => assert FromStr("Ru") == Ru;
    case Rh => assert FromStr("Rh") == Rh;
    case Pd => assert FromStr("Pd") == Pd;
    case Ag => assert FromStr("Ag") == Ag;
  }

  lemma FromStrNameFrom48(e: ElementSymbol)
    requires 48 <= e < 60
    ensures FromStr(Name(e)) == e
  {
    match e
    case Cd => assert FromStr("Cd") == Cd;
    case In => assert FromStr("In") == In;
    case Sn => assert FromStr("Sn") == Sn;
    case Sb => assert FromStr("Sb") == Sb;
    case Te => assert FromStr("Te") == Te;
    case I => assert FromStr("I") == I;
    case Xe => assert FromStr("Xe") == Xe;
    case Cs => assert FromStr("Cs") == Cs;
    case Ba => assert FromStr("Ba") == Ba;
    case La => assert FromStr("La") == La;
    case Ce => assert FromStr("Ce") == Ce;
    case Pr => assert FromStr("Pr") == Pr;
  }

  lemma FromStrNameFrom60(e: ElementSymbol)
    requires 60 <= e < 72
    ensures FromStr(Name(e)) == e
  {
    match e
    case Nd => assert FromStr("Nd") == Nd;
    case Pm => assert FromStr("Pm") == Pm;
    case Sm => assert FromStr("Sm") == Sm;
    case Eu => assert FromStr("Eu") == Eu;
    case Gd => assert FromStr("Gd") == Gd;
    case Tb => assert FromStr("Tb") == Tb;
    case Dy => assert FromStr("Dy") == Dy;
    case Ho => assert FromStr("Ho") == Ho;
    case Er => assert FromStr("Er") == Er;
    case Tm => assert FromStr("Tm") == Tm;
    case Yb => assert FromStr("Yb") == Yb;
    case Lu => assert FromStr("Lu") == Lu;
  }

  lemma FromStrNameFrom72(e: ElementSymbol)
    requires 72 <= e < 84
    ensures FromStr(Name(e)) == e
  {
    match e
    case Hf => assert FromStr("Hf") == Hf;
    case Ta => assert FromStr("Ta") == Ta;
    case W => assert FromStr("W") == W;
    case Re => assert FromStr("Re") == Re;
    case Os => assert FromStr("Os") == Os;
    case Ir => assert FromStr("Ir") == Ir;
    case Pt => assert FromStr("Pt") == Pt;
    case Au => assert FromStr("Au") == Au;
    case Hg => assert FromStr("Hg") == Hg;
    case Tl => assert FromStr("Tl") == Tl;
    case Pb => assert FromStr("Pb") == Pb;
    case Bi => assert FromStr("Bi") == Bi;
  }

  lemma FromStrNameFrom84(e: ElementSymbol)
    requires 84 <= e < 96
    ensures FromStr(Name(e)) == e
  {
    match e
    case Po => assert FromStr("Po") == Po;
    case At => assert FromStr("At") == At;
    case Rn => assert FromStr("Rn") == Rn;
    case Fr => assert FromStr("Fr") == Fr;
    case Ra => assert FromStr("Ra") == Ra;
    case Ac => assert FromStr("Ac") == Ac;
    case Th => assert FromStr("Th") == Th;
    case Pa => assert FromStr("Pa") == Pa;
    case U => assert FromStr("U") == U;
    case Np => assert FromStr("Np") == Np;
    case Pu => assert FromStr("Pu") == Pu;
    case Am => assert FromStr("Am") == Am;
  }

  lemma FromStrNameFrom96(e: ElementSymbol)
    requires 96 <= e < 108
    ensures FromStr(Name(e)) == e
  {
    match e
    case Cm => assert FromStr("Cm") == Cm;
    case Bk => assert FromStr("Bk") == Bk;
    case Cf => assert FromStr("Cf") == Cf;
    case Es => assert FromStr("Es") == Es;
    case Fm => assert FromStr("Fm") == Fm;
    case Md => assert FromStr("Md") == Md;
    case No => assert FromStr("No") == No;
    case Lr => assert FromStr("Lr") == Lr;
    case Rf => assert FromStr("Rf") == Rf;
    case Db => assert FromStr("Db") == Db;
    case Sg => assert FromStr("Sg") == Sg;
    case Bh => assert FromStr("Bh") == Bh;
  }

  lemma FromStrNameFrom108(e: ElementSymbol)
    requires 108 <= e
    ensures FromStr(Name(e)) == e
  {
    match e
    case Hs => assert FromStr("Hs") == Hs;
    case Mt => assert FromStr("Mt") == Mt;
    case Ds => assert FromStr("Ds") == Ds;
    case Rg => assert FromStr("Rg") == Rg;
    case Cn => assert FromStr("Cn") == Cn;
    case Nh => assert FromStr("Nh") == Nh;
    case Fl => assert FromStr("Fl") == Fl;
    case Mc => assert FromStr("Mc") == Mc;
    case Lv => assert FromStr("Lv") == Lv;
    case Ts => assert FromStr("Ts") == Ts;
    case Og => assert FromStr("Og") == Og;
  }

  /** `ATOMIC_WEIGHT[e]`: the weight of `e` in the table of standard atomic
      weights, in unified atomic mass units; 0 for the sentinel `None`. The
      lookup walks the rows from atomic number 0 up to `e`, so that the
      table is only expanded for a known element (`AtomicWeightRow`). */
  function AtomicWeight(e: ElementSymbol): (r: real)
    ensures e == None ==> r == 0.0
    ensures e != None ==> r > 0.0
  {
    WeightFrom(e, 0)
  }

  /** The scan of the table from row `k` on, for a row `k` not past `e`. */
  function WeightFrom(e: ElementSymbol, k: ElementSymbol): (r: real)
    requires k <= e
    ensures e == None ==> r == 0.0
    ensures e != None ==> r > 0.0
    decreases e - k
  {
    if k == e then Row(k) else WeightFrom(e, k + 1)
  }

  /** Row `k` of the table, written out in ranges of twelve atomic numbers. */
  function Row(k: ElementSymbol): (r: real)
    ensures k == None ==> r == 0.0
    ensures k != None ==> r > 0.0
  {
    if k == 0 then 0.0
    else if k < 12 then AtomicWeightFrom0(k)
    else if k < 24 then AtomicWeightFrom12(k)
    else if k < 36 then AtomicWeightFrom24(k)
    else if k < 48 then AtomicWeightFrom36(k)
    else if k < 60 then AtomicWeightFrom48(k)
    else if k < 72 then AtomicWeightFrom60(k)
    else if k < 84 then AtomicWeightFrom72(k)
    else if k < 96 then AtomicWeightFrom84(k)
    else if k < 108 then AtomicWeightFrom96(k)
    else AtomicWeightFrom108(k)
  }

  function AtomicWeightFrom0(e: ElementSymbol): (r: real)
    requires 0 < e < 12
    ensures r > 0.0
  {
    match e
    case 1 => 1.008 // H
    case 2 => 4.002602 // He
    case 3 => 6.94 // Li
    case 4 => 9.0121831 // Be
    case 5 => 10.81 // B
    case 6 => 12.011 // C
    case 7 => 14.007 // N
    case 8 => 15.999 // O
    case 9 => 18.998403163 // F
    case 10 => 20.1797 // Ne
    case 11 => 22.98976928 // Na
    case _ => 0.0
  }

  function AtomicWeightFrom12(e: ElementSymbol): (r: real)
    requires 12 <= e < 24
    ensures r > 0.0
  {
    match e
    case 12 => 24.305 // Mg
    case 13 => 26.9815384 // Al
    case 14 => 28.085 // Si
    case 15 => 30.973761998 // P
    case 16 => 32.06 // S
    case 17 => 35.45 // Cl
    case 18 => 39.95 // Ar
    case 19 => 39.0983 // K
    case 20 => 40.078 // Ca
    case 21 => 44.955907 // Sc
    case 22 => 47.867 // Ti
    case 23 => 50.9415 // V
    case _ => 0.0
  }

  function AtomicWeightFrom24(e: ElementSymbol): (r: real)
    requires 24 <= e < 36
    ensures r > 0.0
  {
    match e
    case 24 => 51.9961 // Cr
    case 25 => 54.938043 // Mn
    case 26 => 55.845 // Fe
    case 27 => 58.933194 // Co
    case 28 => 58.6934 // Ni
    case 29 => 63.546 // Cu
    case 30 => 65.38 // Zn
    case 31 => 69.723 // Ga
    case 32 => 72.630 // Ge
    case 33 => 74.921595 // As
    case 34 => 78.971 // Se
    case 35 => 79.904 // Br
    case _ => 0.0
  }

  function AtomicWeightFrom36(e: ElementSymbol): (r: real)
    requires 36 <= e < 48
    ensures r > 0.0
  {
    match e
    case 36 => 83.798 // Kr
    case 37 => 85.4678 // Rb
    case 38 => 87.62 // Sr
    case 39 => 88.905838 // Y
    case 40 => 91.224 // Zr
    case 41 => 92.90637 // Nb
    case 42 => 95.95 // Mo
    case 43 => 97.0 // Tc
    case 44 => 101.07 // Ru
    case 45 => 102.90549 // Rh
    case 46 => 106.42 // Pd
    case 47 => 107.8682 // Ag
    case _ => 0.0
  }

  function AtomicWeightFrom48(e: ElementSymbol): (r: real)
    requires 48 <= e < 60
    ensures r > 0.0
  {
    match e
    case 48 => 112.414 // Cd
    case 49 => 114.818 // In
    case 50 => 118.710 // Sn
    case 51 => 121.760 // Sb
    case 52 => 127.60 // Te
    case 53 => 126.90447 // I
    case 54 => 131.293 // Xe
    case 55 => 132.90545196 // Cs
    case 56 => 137.327 // Ba
    case 57 => 138.90547 // La
    case 58 => 140.116 // Ce
    case 59 => 140.90766 // Pr
    case _ => 0.0
  }

  function AtomicWeightFrom60(e: ElementSymbol): (r: real)
    requires 60 <= e < 72
    ensures r > 0.0
  {
    match e
    case 60 => 144.242 // Nd
    case 61 => 145.0 // Pm
    case 62 => 150.36 // Sm
    case 63 => 151.964 // Eu
    case 64 => 157.25 // Gd
    case 65 => 158.925354 // Tb
    case 66 => 162.500 // Dy
    case 67 => 164.930329 // Ho
    case 68 => 167.259 // Er
    case 69 => 168.934219 // Tm
    case 70 => 173.045 // Yb
    case 71 => 174.9668 // Lu
    case _ => 0.0
  }

  function AtomicWeightFrom72(e: ElementSymbol): (r: real)
    requires 72 <= e < 84
    ensures r > 0.0
  {
    match e
    case 72 => 178.486 // Hf
    case 73 => 180.94788 // Ta
    case 74 => 183.84 // W
    case 75 => 186.207 // Re
    case 76 => 190.23 // Os
    case 77 => 192.217 // Ir
    case 78 => 195.084 // Pt
    case 79 => 196.966570 // Au
    case 80 => 200.592 // Hg
    case 81 => 204.38 // Tl
    case 82 => 207.2 // Pb
    case 83 => 208.98040 // Bi
    case _ => 0.0
  }

  function AtomicWeightFrom84(e: ElementSymbol): (r: real)
    requires 84 <= e < 96
    ensures r > 0.0
  {
    match e
    case 84 => 209.0 // Po
    case 85 => 210.0 // At
    case 86 => 222.0 // Rn
    case 87 => 223.0 // Fr
    case 88 => 226.0 // Ra
    case 89 => 227.0 // Ac
    case 90 => 232.0377 // Th
    case 91 => 231.03588 // Pa
    case 92 => 238.02891 // U
    case 93 => 237.0 // Np
    case 94 => 244.0 // Pu
    case 95 => 243.0 // Am
    case _ => 0.0
  }

  function AtomicWeightFrom96(e: ElementSymbol): (r: real)
    requires 96 <= e < 108
    ensures r > 0.0
  {
    match e
    case 96 => 247.0 // Cm
    case 97 => 247.0 // Bk
    case 98 => 251.0 // Cf
    case 99 => 252.0 // Es
    case 100 => 257.0 // Fm
    case 101 => 258.0 // Md
    case 102 => 259.0 // No
    case 103 => 262.0 // Lr
    case 104 => 267.0 // Rf
    case 105 => 270.0 // Db
    case 106 => 269.0 // Sg
    case 107 => 270.0 // Bh
    case _ => 0.0
  }

  function AtomicWeightFrom108(e: ElementSymbol): (r: real)
    requires 108 <= e
    ensures r > 0.0
  {
    match e
    case 108 => 270.0 // Hs
    case 109 => 278.0 // Mt
    case 110 => 281.0 // Ds
    case 111 => 281.0 // Rg
    case 112 => 285.0 // Cn
    case 113 => 286.0 // Nh
    case 114 => 289.0 // Fl
    case 115 => 289.0 // Mc
    case 116 => 293.0 // Lv
    case 117 => 293.0 // Ts
    case 118 => 294.0 // Og
    case _ => 0.0
  }


  /** The mass of `n` moles of `e`: its atomic weight times `n`. */
  function Mass(e: ElementSymbol, n: real): real
  {
    AtomicWeight(e) * n
  }

  /** The amount of substance in mass `x` of an element `e`: `x` over its
      atomic weight. The sentinel has weight 0, so the quotient is not
      defined for it. */
  function MolesIn(e: ElementSymbol, x: real): real
    requires e != None
  {
    x / AtomicWeight(e)
  }

  /** The mass of the amount of substance in mass `x` is `x`. */
  lemma MassOfMoles(e: ElementSymbol, x: real)
    requires e != None
    ensures Mass(e, MolesIn(e, x)) == x
  {
    var w := AtomicWeight(e);
    assert w != 0.0;
    assert w * (x / w) == x;
  }

  /** The amount of substance is the mass over the atomic weight. */
  lemma MolesQuotient(e: ElementSymbol, x: real)
    requires e != None
    ensures MolesIn(e, x) == x / AtomicWeight(e)
  {
  }

  /** The scan from any row up to `e` finds row `e`. */
  lemma {:induction false} WeightFromRow(e: ElementSymbol, k: ElementSymbol)
    requires k <= e
    ensures WeightFrom(e, k) == Row(e)
    decreases e - k
  {
    if k < e {
      WeightFromRow(e, k + 1);
    }
  }

  /** The weight of `e` is row `e` of the table. */
  lemma AtomicWeightRow(e: ElementSymbol)
    ensures AtomicWeight(e) == Row(e)
  {
    WeightFromRow(e, 0);
  }
}
