/** The input stage of a pipeline: the input plugins built from a configuration. */
module Pipeline {

  /**
   * An input plugin instance. The plugin itself is opaque; the model keeps the
   * name it was created from, so that the order of the instances can be stated.
   */
  datatype InputPlugin = InputPlugin(name: string)

  class InputSection {
    var inputs: seq<InputPlugin>

    constructor ()
      ensures inputs == []
    {
      inputs := [];
    }

    /** Appends one plugin after the ones already there. */
    method AddPlugin(input: InputPlugin)
      modifies this
      ensures inputs == old(inputs) + [input]
      ensures Count() == old(Count()) + 1
    {
      inputs := inputs + [input];
    }

    function Count(): nat
      reads this
    {
      |inputs|
    }
  }
}
