/** The registry's description of an app and of the hosts it applies to. */
module Registry {
  import opened Wrappers

  datatype Os = MacOs | Linux | Windows

  /** `OtherArch` and `OtherFamily` stand for the variants these open
      enumerations may gain: every match over them has an arm for the rest. */
  datatype Arch = X86_64 | Aarch64 | X86 | OtherArch

  datatype DistroFamily = Debian | Ubuntu | Fedora | ArchLinux | Alpine | OtherFamily

  datatype Platform = Platform(os: Os, arch: Option<Arch>)

  datatype Availability = Available | Deprecated | Disabled

  datatype InstallMethod =
    | BrewMethod(cask: bool, token: string)
    | FlatpakMethod(appId: string, remote: string)
    | DistroMethod(family: DistroFamily, package: string)
    | DirectMethod(url: string)
    | NpmMethod(npmPackage: string, npmPin: Option<string>)
    | CargoMethod(crate: string, cargoPin: Option<string>)
    | PipxMethod(pipxPackage: string)
    | UvMethod(uvPackage: string, uvPin: Option<string>)
    | MiseMethod(tool: string, misePin: Option<string>)

  type TorideId = string

  datatype App = App(id: TorideId, platforms: seq<Platform>, install: InstallMethod, availability: Availability)
}
