/** The description of the local device that the SSDP announcer advertises
    (UPnP/UPnPDevice.cpp): fixed-size character fields written with strlcpy
    and a TCP port. */
module Device {
  import opened Text

  const UPnP_UUID_SIZE := 37
  const UPnP_SCHEMA_URL_SIZE := 64
  const UPnP_FRIENDLY_NAME_SIZE := 64
  const UPnP_SERIAL_NUMBER_SIZE := 32
  const UPnP_PRESENTATION_URL_SIZE := 128
  const UPnP_MODEL_NAME_SIZE := 64
  const UPnP_MODEL_URL_SIZE := 128
  const UPnP_MODEL_VERSION_SIZE := 32
  const UPnP_MANUFACTURER_SIZE := 64
  const UPnP_MANUFACTURER_URL_SIZE := 128

  const DefaultSchemaURL := "ssdp/schema.xml"

  /** A copy of every field of a UPnPDevice, as `device = dev` copies it. */
  datatype DeviceInfo = DeviceInfo(
    uuid: string, modelName: string, modelNumber: string, friendlyName: string,
    presentationURL: string, serialNumber: string, modelURL: string,
    manufacturer: string, manufacturerURL: string, schemaURL: string, port: uint16)

  /** Every field fits its character array, terminator included. */
  predicate Fits(d: DeviceInfo)
  {
    |d.uuid| < UPnP_UUID_SIZE && |d.modelName| < UPnP_MODEL_NAME_SIZE
    && |d.modelNumber| < UPnP_MODEL_VERSION_SIZE && |d.friendlyName| < UPnP_FRIENDLY_NAME_SIZE
    && |d.presentationURL| < UPnP_PRESENTATION_URL_SIZE && |d.serialNumber| < UPnP_SERIAL_NUMBER_SIZE
    && |d.modelURL| < UPnP_MODEL_URL_SIZE && |d.manufacturer| < UPnP_MANUFACTURER_SIZE
    && |d.manufacturerURL| < UPnP_MANUFACTURER_URL_SIZE && |d.schemaURL| < UPnP_SCHEMA_URL_SIZE
  }

  class UPnPDevice {
    var uuid: string
    var modelName: string
    var modelNumber: string
    var friendlyName: string
    var presentationURL: string
    var serialNumber: string
    var modelURL: string
    var manufacturer: string
    var manufacturerURL: string
    var schemaURL: string
    var port: uint16

    function Info(): DeviceInfo
      reads this
    {
      DeviceInfo(uuid, modelName, modelNumber, friendlyName, presentationURL, serialNumber,
                 modelURL, manufacturer, manufacturerURL, schemaURL, port)
    }

    ghost predicate Valid()
      reads this
    {
      Fits(Info())
    }

    /** Every text field empty, the schema URL at its default. The source
        leaves `_port` unassigned; the model starts it at 0. */
    constructor ()
      ensures Valid()
      ensures Info() == DeviceInfo("", "", "", "", "", "", "", "", "", DefaultSchemaURL, 0)
    {
      uuid, modelName, modelNumber, friendlyName := "", "", "", "";
      presentationURL, serialNumber, modelURL := "", "", "";
      manufacturer, manufacturerURL := "", "";
      schemaURL := DefaultSchemaURL;
      port := 0;
    }

    function GetPort(): uint16 reads this { port }
    function GetSchemaURL(): string reads this { schemaURL }
    function GetPresentationURL(): string reads this { presentationURL }
    function GetSerialNumber(): string reads this { serialNumber }
    function GetModelName(): string reads this { modelName }
    function GetModelNumber(): string reads this { modelNumber }
    function GetModelURL(): string reads this { modelURL }
    function GetManufacturer(): string reads this { manufacturer }
    function GetManufacturerURL(): string reads this { manufacturerURL }
    function GetUuid(): string reads this { uuid }
    function GetFriendlyName(): string reads this { friendlyName }

    method SetSchemaURL(url: string)
      requires Valid()
      modifies this
      ensures Valid()
      ensures GetSchemaURL() == Strlcpy(url, UPnP_SCHEMA_URL_SIZE)
      ensures Info() == old(Info()).(schemaURL := GetSchemaURL())
    {
      schemaURL := Strlcpy(url, UPnP_SCHEMA_URL_SIZE);
    }

    method SetHTTPPort(p: uint16)
      requires Valid()
      modifies this
      ensures Valid()
      ensures GetPort() == p && Info() == old(Info()).(port := p)
    {
      port := p;
    }

    method SetName(name: string)
      requires Valid()
      modifies this
      ensures Valid()
      ensures GetFriendlyName() == Strlcpy(name, UPnP_FRIENDLY_NAME_SIZE)
      ensures Info() == old(Info()).(friendlyName := GetFriendlyName())
    {
      friendlyName := Strlcpy(name, UPnP_FRIENDLY_NAME_SIZE);
    }

    method SetURL(url: string)
      requires Valid()
      modifies this
      ensures Valid()
      ensures GetPresentationURL() == Strlcpy(url, UPnP_PRESENTATION_URL_SIZE)
      ensures Info() == old(Info()).(presentationURL := GetPresentationURL())
    {
      presentationURL := Strlcpy(url, UPnP_PRESENTATION_URL_SIZE);
    }

    method SetSerialNumber(serial: string)
      requires Valid()
      modifies this
      ensures Valid()
      ensures GetSerialNumber() == Strlcpy(serial, UPnP_SERIAL_NUMBER_SIZE)
      ensures Info() == old(Info()).(serialNumber := GetSerialNumber())
    {
      serialNumber := Strlcpy(serial, UPnP_SERIAL_NUMBER_SIZE);
    }

    method SetModelName(name: string)
      requires Valid()
      modifies this
      ensures Valid()
      ensures GetModelName() == Strlcpy(name, UPnP_MODEL_NAME_SIZE)
      ensures Info() == old(Info()).(modelName := GetModelName())
    {
      modelName := Strlcpy(name, UPnP_MODEL_NAME_SIZE);
    }

    method SetModelNumber(num: string)
      requires Valid()
      modifies this
      ensures Valid()
      ensures GetModelNumber() == Strlcpy(num, UPnP_MODEL_VERSION_SIZE)
      ensures Info() == old(Info()).(modelNumber := GetModelNumber())
    {
      modelNumber := Strlcpy(num, UPnP_MODEL_VERSION_SIZE);
    }

    method SetModelURL(url: string)
      requires Valid()
      modifies this
      ensures Valid()
      ensures GetModelURL() == Strlcpy(url, UPnP_MODEL_URL_SIZE)
      ensures Info() == old(Info()).(modelURL := GetModelURL())
    {
      modelURL := Strlcpy(url, UPnP_MODEL_URL_SIZE);
    }

    method SetManufacturer(name: string)
      requires Valid()
      modifies this
      ensures Valid()
      ensures GetManufacturer() == Strlcpy(name, UPnP_MANUFACTURER_SIZE)
      ensures Info() == old(Info()).(manufacturer := GetManufacturer())
    {
      manufacturer := Strlcpy(name, UPnP_MANUFACTURER_SIZE);
    }

    method SetManufacturerURL(url: string)
      requires Valid()
      modifies this
      ensures Valid()
      ensures GetManufacturerURL() == Strlcpy(url, UPnP_MANUFACTURER_URL_SIZE)
      ensures Info() == old(Info()).(manufacturerURL := GetManufacturerURL())
    {
      manufacturerURL := Strlcpy(url, UPnP_MANUFACTURER_URL_SIZE);
    }

    method SetPort(p: uint16)
      requires Valid()
      modifies this
      ensures Valid()
      ensures GetPort() == p && Info() == old(Info()).(port := p)
    {
      port := p;
    }
  }
}
