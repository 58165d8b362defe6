/**
  The CSS4 colour names the maps use, and the lookup `mcolors.CSS4_COLORS[name]` on
  them. Hexadecimal codes are not modelled: a colour stands for its own code.
 */
module Colors {
  import opened Wrappers

  datatype Color =
    | Red | Firebrick | IndianRed | Chocolate | Coral | Khaki | FloralWhite
    | MediumSpringGreen | MediumSeaGreen | Green | RoyalBlue | Blue | DarkBlue
    | Maroon | Orange | LightCoral | LightSalmon | LightSkyBlue | DarkTurquoise
    | DeepSkyBlue | Purple
    | Azure | LightCyan | PaleTurquoise | SteelBlue | DodgerBlue | MediumBlue
    | MediumOrchid | DarkViolet | Indigo
    | Ivory | LightGrey | PaleGreen

  /** The CSS4 name of a colour, as the program spells it. */
  function Name(c: Color): (r: string)
    ensures |r| > 0
  {
    match c
    case Red => "red"
    case Firebrick => "firebrick"
    case IndianRed => "indianred"
    case Chocolate => "chocolate"
    case Coral => "coral"
    case Khaki => "khaki"
    case FloralWhite => "floralwhite"
    case MediumSpringGreen => "mediumspringgreen"
    case MediumSeaGreen => "mediumseagreen"
    case Green => "green"
    case RoyalBlue => "royalblue"
    case Blue => "blue"
    case DarkBlue => "darkblue"
    case Maroon => "maroon"
    case Orange => "orange"
    case LightCoral => "lightcoral"
    case LightSalmon => "lightsalmon"
    case LightSkyBlue => "lightskyblue"
    case DarkTurquoise => "darkturquoise"
    case DeepSkyBlue => "deepskyblue"
    case Purple => "purple"
    case Azure => "azure"
    case LightCyan => "lightcyan"
    case PaleTurquoise => "paleturquoise"
    case SteelBlue => "steelblue"
    case DodgerBlue => "dodgerblue"
    case MediumBlue => "mediumblue"
    case MediumOrchid => "mediumorchid"
    case DarkViolet => "darkviolet"
    case Indigo => "indigo"
    case Ivory => "ivory"
    case LightGrey => "lightgrey"
    case PaleGreen => "palegreen"
  }

  /** The name held by the classifier's colour variable: the empty name until a guard assigns one. */
  function NameOf(c: Option<Color>): (r: string)
    ensures r == "" <==> c.None?
  {
    match c
    case None => ""
    case Some(col) => Name(col)
  }

  /**
    `CSS4_COLORS[name]` applied to the classifier's colour variable: every name a guard
    assigns is a CSS4 colour, so the lookup fails (KeyError, here None) exactly on the
    empty name and otherwise yields the colour of that name.
   */
  function Css4Lookup(name: Option<Color>): (r: Option<Color>)
    ensures r.Some? <==> NameOf(name) != ""
    ensures r.Some? ==> Name(r.value) == NameOf(name)
  {
    name
  }
}
