/** The WordPress options table as the settings code uses it: named values
    read with a default, written and deleted. */
module Options {
  import opened Php

  /** The flag the Watson credential probe sets and the admin menu reads. */
  const ConfiguredOption: string := "classifai_configured"

  class OptionStore {
    var options: map<string, Val>

    constructor (initial: map<string, Val>)
      ensures options == initial
    {
      options := initial;
    }

    /** `get_option( $name, $default )`. */
    function GetOption(name: string, default: Val): Val
      reads this
    {
      if name in options then options[name] else default
    }

    /** `update_option( $name, $value )`. */
    method UpdateOption(name: string, value: Val)
      modifies this
      ensures options == old(options)[name := value]
      ensures forall d :: GetOption(name, d) == value
      ensures forall n, d :: n != name ==> GetOption(n, d) == old(GetOption(n, d))
    {
      options := options[name := value];
    }

    /** `delete_option( $name )`. */
    method DeleteOption(name: string)
      modifies this
      ensures options == old(options) - {name}
      ensures forall d :: GetOption(name, d) == d
      ensures forall n, d :: n != name ==> GetOption(n, d) == old(GetOption(n, d))
    {
      options := options - {name};
    }
  }
}
