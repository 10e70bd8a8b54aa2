/** `TextFieldViewMode`: the tap mode of `TextFieldView`, with its raw
    attribute codes and its default. */
module FieldViewMode {
  import opened KotlinStd

  datatype TextFieldViewMode = Edit | Click {
    /** `raw` */
    function Raw(): int {
      match this
      case Edit => 0
      case Click => 1
    }
  }

  /** `TextFieldViewMode.default` */
  const Default: TextFieldViewMode := Edit

  /** `TextFieldViewMode.values()`, in declaration order. */
  const AllModes: seq<TextFieldViewMode> := [Edit, Click]

  /** The two modes are all there is, each listed once, with distinct raw codes. */
  lemma ModesSpec()
    ensures forall m: TextFieldViewMode :: m in AllModes
    ensures |AllModes| == 2 && AllModes[0] != AllModes[1]
    ensures forall m1: TextFieldViewMode, m2: TextFieldViewMode :: m1.Raw() == m2.Raw() ==> m1 == m2
    ensures Default == Edit && Default.Raw() == 0
  {
    forall m: TextFieldViewMode ensures m in AllModes {
      assert AllModes[m.Raw()] == m;
    }
  }

  /** `TextFieldViewMode.values().singleOrNull { it.raw == raw }` */
  function FromRaw(raw: int): Option<TextFieldViewMode> {
    SingleOrNull(AllModes, (m: TextFieldViewMode) => m.Raw() == raw)
  }

  /** Looking a code up yields at most one mode: the one with that code. */
  lemma FromRawSpec(raw: int)
    ensures forall m: TextFieldViewMode :: FromRaw(raw) == Some(m) <==> m.Raw() == raw
  {
    var p := (m: TextFieldViewMode) => m.Raw() == raw;
    if raw == 0 {
      FilterSingleHit(AllModes, p, 0);
    } else if raw == 1 {
      FilterSingleHit(AllModes, p, 1);
    } else {
      FilterNoHit(AllModes, p);
    }
  }

  /** Every mode is found again from its own raw code. */
  lemma FromRawRoundTrip(m: TextFieldViewMode)
    ensures FromRaw(m.Raw()) == Some(m)
  {
    FromRawSpec(m.Raw());
  }
}
