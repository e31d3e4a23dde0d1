/** The service-tier modes shared by the stored choices and the request rewriter. */
module TierModes {
  datatype ThreadMode = Inherit | Standard | Fast

  datatype ControlMode = Inherited | GlobalStandard | GlobalFast | Custom
}
